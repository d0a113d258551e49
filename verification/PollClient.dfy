/** `PollClient` of internal/domain/agent/client_poll.go as an object. Its methods are the
    source's, cut where the mutex is released or a channel operation may block; in between the
    other calls in progress take any number of steps. Every step is logged as an action of the
    protocol's transition system, so what the methods do is always a run of it. */
module PollClient {
  import opened Wrappers
  import opened PollProtocol
  import opened PollInvariant
  import opened PollTheorems
  import opened PollProgress

  /** The run so far. */
  datatype History = Start | Then(before: History, action: Action, now: State)

  function Now(h: History): State {
    if h.Start? then INITIAL else h.now
  }

  ghost predicate GoodHistory(h: History) {
    h.Then? ==> GoodHistory(h.before) && Enabled(Now(h.before), h.action) && h.now == Apply(Now(h.before), h.action)
  }

  ghost function Actions(h: History): seq<Action> {
    if h.Start? then [] else Actions(h.before) + [h.action]
  }

  ghost predicate Extends(h: History, earlier: History) {
    h == earlier || (h.Then? && Extends(h.before, earlier))
  }

  /** A later history, in a form that chains. */
  ghost predicate Further(h: History, earlier: History) {
    forall x :: Extends(earlier, x) ==> Extends(h, x)
  }

  /** A history is a run of the protocol. */
  lemma {:induction false} HistoryIsRun(h: History)
    requires GoodHistory(h)
    ensures Legal(INITIAL, Actions(h)) && Final(INITIAL, Actions(h)) == Now(h)
  {
    if h.Then? {
      HistoryIsRun(h.before);
      Appended(INITIAL, Actions(h.before), h.action);
    }
  }

  /** Who takes a step: a Send, a Poll, a delivery, or a SendAll with all its Sends. */
  datatype Caller = SendCall(s: nat) | PollCall(p: nat) | DeliverCall(d: nat) | GroupCall(g: nat)

  /** The steps only that caller takes. Contexts end on their own. */
  predicate Mine(st: State, me: Caller, a: Action) {
    match me
    case SendCall(s) => Own(a) && a.s == s
    case PollCall(p) => (a.PollTake? || a.PollTimeout?) && a.p == p
    case DeliverCall(d) => a.Put? && a.d == d
    case GroupCall(g) =>
      (Own(a) || a.Collect?) && a.s < |st.sends| && st.sends[a.s].group == Some(g)
  }

  /** What the other calls leave alone. */
  ghost predicate Undisturbed(a: State, b: State, me: Caller) {
    match me
    case SendCall(s) => s < |a.sends| ==> s < |b.sends| && SameCall(a.sends[s], b.sends[s])
    case PollCall(p) => p < |a.polls| ==> p < |b.polls| && b.polls[p] == a.polls[p]
    case DeliverCall(d) => d < |a.deliveries| ==> d < |b.deliveries| && b.deliveries[d] == a.deliveries[d]
    case GroupCall(g) =>
      && (g < |a.groups| ==> g < |b.groups| && b.groups[g] == a.groups[g])
      && |a.sends| <= |b.sends|
      && forall i :: 0 <= i < |a.sends| && a.sends[i].group == Some(g) ==> SameCall(a.sends[i], b.sends[i])
  }

  lemma OtherPoll(st: State, a: Action, p: nat)
    requires Enabled(st, a) && p < |st.polls| && !((a.PollTake? || a.PollTimeout?) && a.p == p)
    ensures p < |Apply(st, a).polls| && Apply(st, a).polls[p] == st.polls[p]
  {
  }

  lemma OtherDelivery(st: State, a: Action, d: nat)
    requires Enabled(st, a) && d < |st.deliveries| && !(a.Put? && a.d == d)
    ensures d < |Apply(st, a).deliveries| && Apply(st, a).deliveries[d] == st.deliveries[d]
  {
  }

  lemma OtherGroup(st: State, a: Action, g: nat)
    requires Enabled(st, a) && g < |st.groups| && (a.Collect? ==> st.sends[a.s].group != Some(g))
    ensures g < |Apply(st, a).groups| && Apply(st, a).groups[g] == st.groups[g]
  {
  }

  lemma StepsOfOthers(st: State, a: Action, me: Caller)
    requires Enabled(st, a) && !Mine(st, me, a)
    ensures Undisturbed(st, Apply(st, a), me)
  {
    match me
    case SendCall(s) => if s < |st.sends| { OtherSend(st, a, s); }
    case PollCall(p) => if p < |st.polls| { OtherPoll(st, a, p); }
    case DeliverCall(d) => if d < |st.deliveries| { OtherDelivery(st, a, d); }
    case GroupCall(g) =>
      if g < |st.groups| { OtherGroup(st, a, g); }
      StepContinues(st, a);
      forall i | 0 <= i < |st.sends| && st.sends[i].group == Some(g)
        ensures SameCall(st.sends[i], Apply(st, a).sends[i])
      {
        OtherSend(st, a, i);
      }
  }

  lemma UndisturbedFurther(a: State, b: State, c: State, me: Caller)
    requires Undisturbed(a, b, me) && Undisturbed(b, c, me)
    ensures Undisturbed(a, c, me)
  {
  }

  lemma UndisturbedItself(st: State, me: Caller)
    ensures Undisturbed(st, st, me)
  {
  }

  /** A Send keeps its target, its action, and the id its caller gave. */
  predicate SameCommand(a: Send, b: Send) {
    && b.target == a.target && b.cmd.action == a.cmd.action
    && (a.cmd.id != "" ==> b.cmd.id == a.cmd.id)
  }

  ghost predicate AllSameCommand(a: seq<Send>, b: seq<Send>) {
    |a| <= |b| && forall i :: 0 <= i < |a| ==> SameCommand(a[i], b[i])
  }

  /** What later steps do not change. */
  lemma {:induction false} ExtendedKeeps(h: History, earlier: History)
    requires GoodHistory(h) && Extends(h, earlier)
    ensures GoodHistory(earlier)
    ensures AllSameCommand(Now(earlier).sends, Now(h).sends) && SameMembers(Now(earlier).groups, Now(h).groups)
  {
    if h != earlier {
      ExtendedKeeps(h.before, earlier);
      StepMembersKept(Now(h.before), h.action);
      StepCommands(Now(h.before), h.action);
    }
  }

  lemma OwnCommand(st: State, a: Action)
    requires Own(a) && Enabled(st, a) && a.s < |Apply(st, a).sends|
    ensures SameCommand(st.sends[a.s], Apply(st, a).sends[a.s])
  {
  }

  lemma OtherCommands(st: State, a: Action)
    requires !Own(a) && Enabled(st, a)
    ensures AllSameCommand(st.sends, Apply(st, a).sends)
  {
  }

  lemma StepCommands(st: State, a: Action)
    requires Enabled(st, a)
    ensures AllSameCommand(st.sends, Apply(st, a).sends)
  {
    if Own(a) {
      OwnFrame(st, a);
      OwnCommand(st, a);
    } else {
      OtherCommands(st, a);
    }
  }

  /** What a Send returned, in any history in which the client makes the ids: nil exactly on a
      report that is not a failure, a command error exactly on one that is, and in both cases
      the report with its own id that came first. */
  lemma ReturnMeans(h: History, s: nat)
    requires GoodHistory(h) && AutoOnly(Actions(h)) && s < |Now(h).sends| && Now(h).sends[s].pc.Returned?
    ensures var snd := Now(h).sends[s];
            && (snd.pc.outcome == Nil <==> snd.got.Some? && snd.got.value.status != Failed)
            && (snd.pc.outcome.CommandFailed? <==> snd.got.Some? && snd.got.value.status == Failed)
            && (snd.got.Some? ==> snd.got == snd.first && snd.got.value.commandID == snd.cmd.id && snd.queued)
  {
    HistoryIsRun(h);
    AutoIDsAreFresh(INITIAL, Actions(h));
    SendOutcome(Actions(h), s);
  }

  /** The Poll for that machine is over, with `r`. */
  ghost predicate Got(st: State, p: nat, machine: string, r: Option<Command>) {
    && p < |st.polls| && st.polls[p].machine == machine
    && match r
       case Some(cmd) => st.polls[p].pc.PollGot? && st.polls[p].pc.cmd == cmd
       case None => st.polls[p].pc == PollNothing
  }

  /** The last step was that Poll's timeout, while no command waited for the machine. */
  ghost predicate GaveUpEmpty(h: History, p: nat, machine: string) {
    h.Then? && h.action == PollTimeout(p) && Lookup(Now(h.before).core.queues, machine) == []
  }

  /** The Send with that target and action, and the caller's id if there was one. */
  predicate IsCall(st: State, s: nat, target: string, id: string, action: string) {
    && s < |st.sends| && st.sends[s].target == target && st.sends[s].cmd.action == action
    && (id != "" ==> st.sends[s].cmd.id == id)
  }

  /** One Send for each target, after those there were before. */
  ghost predicate Sent(before: State, after: State, targets: seq<string>, id: string, action: string) {
    && |before.sends| + |targets| <= |after.sends|
    && forall i :: 0 <= i < |targets| ==> IsCall(after, |before.sends| + i, targets[i], id, action)
  }

  lemma NoneSent(st: State, targets: seq<string>, id: string, action: string)
    requires |targets| == 0
    ensures Sent(st, st, targets, id, action) && Ended(st.sends, |st.sends|, |st.sends|, Nil)
  {
  }

  lemma OneSent(before: State, after: State, targets: seq<string>, id: string, action: string)
    requires |targets| == 1 && IsCall(after, |before.sends|, targets[0], id, action)
    ensures Sent(before, after, targets, id, action)
  {
  }

  lemma OneEnded(sends: seq<Send>, s: nat, r: Outcome)
    requires s < |sends| && sends[s].pc == Returned(r) && EndsAs(sends[s], r)
    ensures Ended(sends, s, s + 1, r)
  {
  }

  lemma StartedTogether(st: State, targets: seq<string>, id: string, action: string)
    ensures var t := Apply(st, CallSendAll(targets, id, action));
            Sent(st, t, targets, id, action) && t.core == st.core
            && (forall i :: |st.sends| <= i < |t.sends| ==> t.sends[i].pc == New)
            && t.groups[|st.groups|] == Group(|st.sends|, |st.sends| + |targets|, {}, None)
  {
  }

  lemma StillSent(before: State, between: State, after: State, targets: seq<string>, id: string, action: string)
    requires Sent(before, between, targets, id, action) && AllSameCommand(between.sends, after.sends)
    ensures Sent(before, after, targets, id, action)
  {
    forall i | 0 <= i < |targets|
      ensures IsCall(after, |before.sends| + i, targets[i], id, action)
    {
      assert IsCall(between, |before.sends| + i, targets[i], id, action);
    }
  }

  /** A Send is over with a report, or its context has ended, or its agent did not connect. */
  ghost predicate EndsAs(snd: Send, r: Outcome) {
    match r
    case Nil => snd.got.Some? && snd.got.value.status != Failed
    case CommandFailed(error) => snd.got.Some? && snd.got.value.status == Failed && snd.got.value.error == error
    case ContextDone => snd.ctxDone
    case AgentTimeout => true
  }

  /** The Sends from `lo` to `hi - 1` have returned, and `r` is nil exactly when all of them
      returned nil, and the error of one of them otherwise. */
  ghost predicate Ended(sends: seq<Send>, lo: nat, hi: nat, r: Outcome) {
    && lo <= hi <= |sends|
    && (forall i :: lo <= i < hi ==> sends[i].pc.Returned? && EndsAs(sends[i], sends[i].pc.outcome))
    && (r == Nil <==> forall i :: lo <= i < hi ==> sends[i].pc == Returned(Nil))
    && (r != Nil ==> exists i :: lo <= i < hi && sends[i].pc == Returned(r))
  }

  lemma CollectedEnded(h: History, g: nat, lo: nat, hi: nat)
    requires GoodHistory(h) && g < |Now(h).groups| && Now(h).groups[g].lo == lo <= hi == Now(h).groups[g].hi
    requires forall i :: lo <= i < hi ==> i in Now(h).groups[g].collected
    ensures Ended(Now(h).sends, lo, hi, FirstError(Now(h).groups[g]))
  {
    HistoryIsRun(h);
    AnyEndInv(Actions(h));
    assert GroupOk(Now(h).sends, g, Now(h).groups[g]);
    forall i | lo <= i < hi
      ensures EndsAs(Now(h).sends[i], Now(h).sends[i].pc.outcome)
    {
      ReturnedAs(h, i);
    }
  }

  /** Once its agent is connected, a Send that has not timed out before never does. */
  lemma {:induction false} NotLateSince(h: History, earlier: History, s: nat)
    requires GoodHistory(h) && Extends(h, earlier) && s < |Now(earlier).sends|
    requires Closed(Now(earlier).core, Now(earlier).sends[s].target) && !TimedOut(Now(earlier).sends[s].pc)
    ensures s < |Now(h).sends| && Now(h).sends[s].target == Now(earlier).sends[s].target
    ensures Closed(Now(h).core, Now(h).sends[s].target) && !TimedOut(Now(h).sends[s].pc)
  {
    if h != earlier {
      NotLateSince(h.before, earlier, s);
      StepNotLate(Now(h.before), h.action, s);
    }
  }

  lemma {:induction false} ClosedSince(h: History, earlier: History, m: string)
    requires GoodHistory(h) && Extends(h, earlier) && Closed(Now(earlier).core, m)
    ensures Closed(Now(h).core, m)
  {
    if h != earlier {
      ClosedSince(h.before, earlier, m);
      HealthStep(Now(h.before), h.action, m);
    }
  }

  lemma ReturnedAs(h: History, s: nat)
    requires GoodHistory(h) && s < |Now(h).sends| && Now(h).sends[s].pc.Returned?
    ensures EndsAs(Now(h).sends[s], Now(h).sends[s].pc.outcome)
  {
    HistoryIsRun(h);
    EndsInv(INITIAL, Actions(h));
    assert EndOk(Now(h).sends[s]);
  }

  /** None of the Sends whose agents are connected has timed out. */
  ghost predicate InTime(core: Core, sends: seq<Send>, lo: nat, targets: seq<string>) {
    lo + |targets| <= |sends|
    && forall i :: 0 <= i < |targets| && Closed(core, targets[i]) ==> !TimedOut(sends[lo + i].pc)
  }

  lemma InTimeSince(h: History, begun: History, before: State, targets: seq<string>, id: string, action: string)
    requires GoodHistory(h) && Extends(h, begun) && Sent(before, Now(begun), targets, id, action)
    requires forall i :: |before.sends| <= i < |Now(begun).sends| ==> Now(begun).sends[i].pc == New
    ensures InTime(Now(begun).core, Now(h).sends, |before.sends|, targets)
  {
    ExtendedKeeps(h, begun);
    forall i | 0 <= i < |targets| && Closed(Now(begun).core, targets[i])
      ensures !TimedOut(Now(h).sends[|before.sends| + i].pc)
    {
      assert IsCall(Now(begun), |before.sends| + i, targets[i], id, action);
      NotLateSince(h, begun, |before.sends| + i);
    }
  }

  /** What later steps leave of a SendAll that has just begun. */
  lemma MembersSince(h: History, begun: History, before: State, targets: seq<string>, id: string, action: string)
    requires GoodHistory(h) && Extends(h, begun) && Now(begun) == Apply(before, CallSendAll(targets, id, action))
    ensures Sent(before, Now(h), targets, id, action) && InTime(before.core, Now(h).sends, |before.sends|, targets)
    ensures |before.groups| < |Now(h).groups|
    ensures Now(h).groups[|before.groups|].lo == |before.sends|
    ensures Now(h).groups[|before.groups|].hi == |before.sends| + |targets|
  {
    StartedTogether(before, targets, id, action);
    ExtendedKeeps(h, begun);
    StillSent(before, Now(begun), Now(h), targets, id, action);
    InTimeSince(h, begun, before, targets, id, action);
  }

  /** A SendAll whose members are these has not collected all of them. */
  ghost predicate Uncollected(st: State, lo: nat, hi: nat) {
    exists g, i :: 0 <= g < |st.groups| && st.groups[g].lo == lo && st.groups[g].hi == hi && lo <= i < hi
        && i !in st.groups[g].collected
  }

  function FirstError(group: Group): Outcome {
    if group.firstErr.None? then Nil else group.firstErr.value
  }

  /** The same commands for every machine. */
  ghost predicate SameQueues(a: map<string, seq<Command>>, b: map<string, seq<Command>>) {
    forall m :: Lookup(a, m) == Lookup(b, m)
  }

  lemma QueuesSet(a: map<string, seq<Command>>, b: map<string, seq<Command>>, machine: string, q: seq<Command>)
    requires SameQueues(a, b)
    ensures SameQueues(a[machine := q], b[machine := q])
  {
    var c, d := a[machine := q], b[machine := q];
    forall m
      ensures Lookup(c, m) == Lookup(d, m)
    {
      assert Lookup(a, m) == Lookup(b, m);
    }
  }

  class PollClient {
    var queues: map<string, seq<Command>>
    var results: map<string, nat>
    var healthy: map<string, bool>
    var cmdSeq: nat

    /** What is not in the fields: the calls in progress, their contexts, and the contents of
        their result channels. */
    var world: State

    ghost var history: History

    constructor ()
      ensures Valid() && history == Start
    {
      queues, results, healthy, cmdSeq := map[], map[], map[], 0;
      world, history := INITIAL, Start;
    }

    /** The fields hold what the protocol's state says. A queue created empty is as good as a
        missing one. */
    ghost predicate Linked()
      reads this
    {
      && results == world.core.results && healthy == world.core.healthy && cmdSeq == world.core.cmdSeq
      && SameQueues(queues, world.core.queues)
    }

    ghost predicate Valid()
      reads this
    {
      Linked() && GoodHistory(history) && world == Now(history)
    }

    /** The step just taken. */
    method Advance(a: Action)
      requires GoodHistory(history) && world == Now(history) && Enabled(world, a)
      modifies this`world, this`history
      ensures GoodHistory(history) && world == Now(history) && world == Apply(old(world), a)
      ensures history == Then(old(history), a, world)
    {
      world := Apply(world, a);
      history := Then(history, a, world);
    }

    /** Any number of steps of the other calls, and of contexts that end. */
    method Others(me: Caller)
      requires Valid()
      modifies this
      ensures Valid() && Further(history, old(history)) && Undisturbed(old(world), world, me)
    {
      var steps :| steps >= 0;
      UndisturbedItself(world, me);
      for i := 0 to steps
        invariant Valid() && Further(history, old(history)) && Undisturbed(old(world), world, me)
      {
        var a: Action := *;
        if Enabled(world, a) && !Mine(world, me, a) {
          ghost var before := world;
          OtherStep(me, a);
          UndisturbedFurther(old(world), before, world, me);
        }
      }
    }

    method OtherStep(me: Caller, a: Action)
      requires Valid() && Enabled(world, a) && !Mine(world, me, a)
      modifies this
      ensures Valid() && Further(history, old(history)) && Undisturbed(old(world), world, me)
    {
      StepsOfOthers(world, a, me);
      Advance(a);
      queues, results, healthy, cmdSeq :=
          world.core.queues, world.core.results, world.core.healthy, world.core.cmdSeq;
    }

    // ---- Send ----

    /** The command's id: the caller's, or one made from the counter. */
    method PickID(s: nat, target: string, id: string) returns (picked: string)
      requires Valid() && At(world, s, New) && world.sends[s].target == target && world.sends[s].cmd.id == id
      modifies this
      ensures Valid() && history == Then(old(history), Action.PickID(s), world) && At(world, s, Named)
      ensures world.sends[s].cmd == old(world.sends[s].cmd).(id := picked) && world.sends[s].target == target
    {
      picked := id;
      if id == "" {
        cmdSeq := cmdSeq + 1;
        picked := AutoID(target, cmdSeq);
      }
      Advance(Action.PickID(s));
    }

    /** MarkAgentReady, and the locked part of waitForAgent: make sure a channel exists. */
    method EnsureChannel(machine: string)
      modifies this`healthy
      ensures healthy == if machine in old(healthy) then old(healthy) else old(healthy)[machine := false]
    {
      if machine !in healthy {
        healthy := healthy[machine := false];
      }
    }

    method MarkAgentReady(machine: string)
      requires Valid()
      modifies this
      ensures Valid() && history == Then(old(history), Action.MarkAgentReady(machine), world)
      ensures machine in healthy
    {
      EnsureChannel(machine);
      Advance(Action.MarkAgentReady(machine));
    }

    method EnterWait(s: nat)
      requires Valid() && At(world, s, Named)
      modifies this
      ensures Valid() && history == Then(old(history), Action.EnterWait(s), world) && At(world, s, WaitingAgent)
      ensures SameCall(old(world.sends[s]).(pc := WaitingAgent), world.sends[s])
    {
      EnsureChannel(world.sends[s].target);
      Advance(Action.EnterWait(s));
    }

    method SeeAgent(s: nat)
      requires Valid() && At(world, s, WaitingAgent) && world.sends[s].target in healthy
          && healthy[world.sends[s].target]
      modifies this
      ensures Valid() && history == Then(old(history), AgentSeen(s), world) && At(world, s, Connected)
      ensures SameCall(old(world.sends[s]).(pc := Connected), world.sends[s])
    {
      Advance(AgentSeen(s));
    }

    method GiveUp(s: nat, late: bool) returns (outcome: Outcome)
      requires Valid() && At(world, s, WaitingAgent)
      requires if late then !Closed(world.core, world.sends[s].target) else world.sends[s].ctxDone
      modifies this
      ensures Valid() && Further(history, old(history)) && At(world, s, Returned(outcome))
      ensures outcome == if late then AgentTimeout else ContextDone
      ensures SameCall(old(world.sends[s]).(pc := Returned(outcome)), world.sends[s])
    {
      outcome := if late then AgentTimeout else ContextDone;
      Advance(if late then AgentLate(s) else WaitCancelled(s));
    }

    /** waitForAgent's select: the agent's channel is closed, the deadline passes, or the context ends. */
    method WaitForAgent(s: nat) returns (connected: bool)
      requires Valid() && At(world, s, WaitingAgent)
      modifies this
      ensures Valid() && Further(history, old(history)) && s < |world.sends|
      ensures if connected then world.sends[s].pc == Connected else world.sends[s].pc.Returned?
      ensures connected ==> Closed(old(world).core, old(world).sends[s].target)
      ensures !connected ==> old(world).sends[s].ctxDone || !Closed(old(world).core, old(world).sends[s].target)
      ensures SameCall(old(world.sends[s]).(pc := world.sends[s].pc), world.sends[s])
    {
      var choice := *;
      var target := world.sends[s].target;
      var closed, wins := target in healthy && healthy[target], choice || !world.sends[s].ctxDone;
      connected := closed && wins;
      if connected {
        SeeAgent(s);
      } else {
        var outcome := GiveUp(s, !closed && wins);
      }
    }

    method RegisterResult(s: nat)
      requires Valid() && At(world, s, Connected)
      modifies this
      ensures Valid() && history == Then(old(history), Register(s), world) && At(world, s, Enqueueing)
      ensures SameCall(old(world.sends[s]).(pc := Enqueueing), world.sends[s])
    {
      results := results[world.sends[s].cmd.id := s];
      Advance(Register(s));
    }

    /** A missing queue is created empty. */
    method GetQueue(machine: string) returns (q: seq<Command>)
      requires Valid()
      modifies this`queues
      ensures Valid() && machine in queues && q == queues[machine] == Lookup(world.core.queues, machine)
    {
      if machine !in queues {
        queues := queues[machine := []];
      }
      q := queues[machine];
    }

    method Push(s: nat)
      requires Valid() && At(world, s, Enqueueing) && world.sends[s].target in queues
      requires |queues[world.sends[s].target]| < QUEUE_SIZE
      modifies this
      ensures Valid() && history == Then(old(history), Enqueue(s), world) && At(world, s, Awaiting)
      ensures SameCall(old(world.sends[s]).(pc := Awaiting), world.sends[s])
    {
      var machine := world.sends[s].target;
      assert queues[machine] == Lookup(queues, machine) == Lookup(world.core.queues, machine);
      QueuesSet(queues, world.core.queues, machine, queues[machine] + [world.sends[s].cmd]);
      queues := queues[machine := queues[machine] + [world.sends[s].cmd]];
      Advance(Enqueue(s));
    }

    method LeaveWithContext(s: nat)
      requires Valid() && (At(world, s, Enqueueing) || At(world, s, Awaiting)) && world.sends[s].ctxDone
      modifies this
      ensures Valid() && Further(history, old(history)) && At(world, s, Leaving(ContextDone))
      ensures SameCall(old(world.sends[s]).(pc := Leaving(ContextDone)), world.sends[s])
    {
      Advance(if world.sends[s].pc == Enqueueing then EnqueueCancelled(s) else AwaitCancelled(s));
    }

    /** `q <- cmd` against the end of the context; None while neither is possible. */
    method EnqueueOrCancel(s: nat) returns (sent: Option<bool>)
      requires Valid() && At(world, s, Enqueueing)
      modifies this
      ensures Valid() && Further(history, old(history)) && s < |world.sends|
      ensures match sent
              case Some(pushed) => world.sends[s].pc == if pushed then Awaiting else Leaving(ContextDone)
              case None => Stuck(world, s)
      ensures SameCall(old(world.sends[s]).(pc := world.sends[s].pc), world.sends[s])
    {
      var q := GetQueue(world.sends[s].target);
      var choice := *;
      if |q| < QUEUE_SIZE && (choice || !world.sends[s].ctxDone) {
        Push(s);
        sent := Some(true);
      } else if world.sends[s].ctxDone {
        LeaveWithContext(s);
        sent := Some(false);
      } else {
        sent := None;
      }
    }

    method TakeReport(s: nat)
      requires Valid() && At(world, s, Awaiting) && world.sends[s].buf.Some?
      modifies this
      ensures Valid() && history == Then(old(history), Receive(s), world)
      ensures At(world, s, Leaving(OutcomeOf(old(world.sends[s].buf.value))))
      ensures SameCall(old(world.sends[s]).(pc := world.sends[s].pc), world.sends[s])
    {
      Advance(Receive(s));
    }

    /** The report against the end of the context; false while neither is there. */
    method AwaitReport(s: nat) returns (over: bool)
      requires Valid() && At(world, s, Awaiting)
      modifies this
      ensures Valid() && Further(history, old(history)) && s < |world.sends|
      ensures if over then world.sends[s].pc.Leaving? else Stuck(world, s)
      ensures SameCall(old(world.sends[s]).(pc := world.sends[s].pc), world.sends[s])
    {
      var choice := *;
      over := true;
      if world.sends[s].buf.Some? && (choice || !world.sends[s].ctxDone) {
        TakeReport(s);
      } else if world.sends[s].ctxDone {
        LeaveWithContext(s);
      } else {
        over := false;
      }
    }

    /** The deferred removal; the call returns. */
    method UnregisterResult(s: nat) returns (outcome: Outcome)
      requires Valid() && s < |world.sends| && world.sends[s].pc.Leaving?
      modifies this
      ensures Valid() && history == Then(old(history), Unregister(s), world) && At(world, s, Returned(outcome))
      ensures outcome == old(world.sends[s]).pc.outcome
      ensures SameCall(old(world.sends[s]).(pc := world.sends[s].pc), world.sends[s])
    {
      outcome := world.sends[s].pc.outcome;
      results := results - {world.sends[s].cmd.id};
      Advance(Unregister(s));
    }

    method BeginSend(target: string, id: string, action: string) returns (s: nat)
      requires Valid()
      modifies this
      ensures Valid() && history == Then(old(history), CallSend(target, id, action), world)
          && Further(history, old(history))
      ensures s == |old(world).sends| && s < |world.sends| && world.sends[s] == NewSend(target, id, action, None)
    {
      s := |world.sends|;
      Advance(CallSend(target, id, action));
    }

    method Connect(s: nat) returns (connected: bool)
      requires Valid() && At(world, s, Named)
      modifies this
      ensures Valid() && Further(history, old(history)) && s < |world.sends|
      ensures if connected then world.sends[s].pc == Connected else world.sends[s].pc.Returned?
      ensures SameCall(old(world.sends[s]).(pc := world.sends[s].pc), world.sends[s])
    {
      Others(SendCall(s));
      EnterWait(s);
      Others(SendCall(s));
      connected := WaitForAgent(s);
    }

    /** Send. It returns an outcome, or is still waiting at a full queue or for its report. */
    method Send(target: string, id: string, action: string) returns (r: Option<Outcome>, s: nat)
      requires Valid()
      modifies this
      ensures Valid() && Further(history, old(history)) && s == |old(world).sends|
      ensures IsCall(world, s, target, id, action)
      ensures if r.Some? then world.sends[s].pc == Returned(r.value) && EndsAs(world.sends[s], r.value)
              else Stuck(world, s)
      ensures Closed(old(world).core, target) ==> !TimedOut(world.sends[s].pc)
    {
      s := BeginSend(target, id, action);
      ghost var begun := history;
      var picked := PickID(s, target, id);
      var connected := Connect(s);
      if connected {
        r := Exchange(s);
      } else {
        r := Some(world.sends[s].pc.outcome);
      }
      assert Extends(begun, begun);
      if Closed(old(world).core, target) { NotLateSince(history, begun, s); }
      if r.Some? { ReturnedAs(history, s); }
    }

    /** The second select and the deferred removal. */
    method AwaitOutcome(s: nat) returns (r: Option<Outcome>)
      requires Valid() && At(world, s, Awaiting)
      modifies this
      ensures Valid() && Further(history, old(history)) && s < |world.sends|
      ensures SameCall(old(world.sends[s]).(pc := world.sends[s].pc), world.sends[s])
      ensures if r.Some? then world.sends[s].pc == Returned(r.value) else Stuck(world, s)
    {
      Others(SendCall(s));
      var over := AwaitReport(s);
      if !over {
        return None;
      }
      Others(SendCall(s));
      var outcome := UnregisterResult(s);
      r := Some(outcome);
    }

    /** The rest of Send, once the agent is there: register, both selects, the deferred removal. */
    method Exchange(s: nat) returns (r: Option<Outcome>)
      requires Valid() && At(world, s, Connected)
      modifies this
      ensures Valid() && Further(history, old(history)) && s < |world.sends|
      ensures SameCall(old(world.sends[s]).(pc := world.sends[s].pc), world.sends[s])
      ensures if r.Some? then world.sends[s].pc == Returned(r.value) else Stuck(world, s)
    {
      Others(SendCall(s));
      RegisterResult(s);
      Others(SendCall(s));
      var sent := EnqueueOrCancel(s);
      match sent
      case None => r := None;
      case Some(pushed) =>
        if pushed {
          r := AwaitOutcome(s);
        } else {
          Others(SendCall(s));
          var outcome := UnregisterResult(s);
          r := Some(outcome);
        }
    }

    // ---- SendAll ----

    /** One step of a Send that a SendAll started, whichever comes next; collecting its result
        is the last one. */
    method StepMember(s: nat)
      requires Valid() && s < |world.sends|
      modifies this
      ensures Valid() && Further(history, old(history))
    {
      match world.sends[s].pc
      case New =>
        var picked := PickID(s, world.sends[s].target, world.sends[s].cmd.id);
      case Named => EnterWait(s);
      case WaitingAgent =>
        var connected := WaitForAgent(s);
      case Connected => RegisterResult(s);
      case _ => StepRegistered(s);
    }

    method StepRegistered(s: nat)
      requires Valid() && s < |world.sends|
      modifies this
      ensures Valid() && Further(history, old(history))
    {
      if world.sends[s].pc == Enqueueing {
        var sent := EnqueueOrCancel(s);
      } else if world.sends[s].pc == Awaiting {
        var over := AwaitReport(s);
      } else if world.sends[s].pc.Leaving? {
        var outcome := UnregisterResult(s);
      } else if Enabled(world, Collect(s)) {
        Advance(Collect(s));
      }
    }

    /** SendAll. None while some of its Sends has not been collected, or its only one waits. */
    method SendAll(targets: seq<string>, id: string, action: string) returns (r: Option<Outcome>)
      requires Valid()
      modifies this
      ensures Valid() && Further(history, old(history))
      ensures Sent(old(world), world, targets, id, action)
      ensures r.Some? ==> Ended(world.sends, |old(world).sends|, |old(world).sends| + |targets|, r.value)
      ensures InTime(old(world).core, world.sends, |old(world).sends|, targets)
      ensures r.None? ==>
                var lo := |old(world).sends|;
                |targets| > 0 && if |targets| == 1 then Stuck(world, lo) else Uncollected(world, lo, lo + |targets|)
    {
      r := None;
      if |targets| == 0 {
        r := Some(Nil);
        NoneSent(world, targets, id, action);
      } else if |targets| == 1 {
        var s;
        r, s := Send(targets[0], id, action);
        OneSent(old(world), world, targets, id, action);
        if r.Some? { OneEnded(world.sends, s, r.value); }
      } else {
        r := SendSeveral(targets, id, action);
      }
    }

    method BeginSendAll(targets: seq<string>, id: string, action: string) returns (g: nat)
      requires Valid()
      modifies this
      ensures Valid() && history == Then(old(history), CallSendAll(targets, id, action), world)
      ensures g == |old(world).groups| && g < |world.groups|
      ensures world.groups[g] == Group(|old(world).sends|, |old(world).sends| + |targets|, {}, None)
      ensures world == Apply(old(world), CallSendAll(targets, id, action))
    {
      g := |world.groups|;
      StartedTogether(world, targets, id, action);
      Advance(CallSendAll(targets, id, action));
    }

    /** More than one target: all of them at the same time. */
    method SendSeveral(targets: seq<string>, id: string, action: string) returns (r: Option<Outcome>)
      requires Valid()
      modifies this
      ensures Valid() && Further(history, old(history))
      ensures Sent(old(world), world, targets, id, action)
      ensures r.Some? ==> Ended(world.sends, |old(world).sends|, |old(world).sends| + |targets|, r.value)
      ensures InTime(old(world).core, world.sends, |old(world).sends|, targets)
      ensures r.None? ==> Uncollected(world, |old(world).sends|, |old(world).sends| + |targets|)
    {
      r := None;
      var lo, hi := |world.sends|, |world.sends| + |targets|;
      var g := BeginSendAll(targets, id, action);
      ghost var begun := history;
      Together(g);
      assert Extends(begun, begun);
      MembersSince(history, begun, old(world), targets, id, action);
      if forall i | lo <= i < hi :: i in world.groups[g].collected {
        CollectedEnded(history, g, lo, hi);
        r := Some(FirstError(world.groups[g]));
      }
    }

    /** Its Sends and everything else go on for a while, in any order. */
    method Together(g: nat)
      requires Valid() && g < |world.groups|
      modifies this
      ensures Valid() && Further(history, old(history))
    {
      var rounds :| rounds >= 0;
      for i := 0 to rounds
        invariant Valid() && Further(history, old(history))
      {
        Others(GroupCall(g));
        var s: int := *;
        if 0 <= s < |world.sends| && world.sends[s].group == Some(g) {
          StepMember(s);
        }
      }
    }

    // ---- Poll and DeliverReport ----

    /** The agent counts as connected: its channel is closed if there is one. */
    method BeginPoll(machine: string) returns (p: nat)
      requires Valid()
      modifies this
      ensures Valid() && history == Then(old(history), CallPoll(machine), world)
      ensures p == |old(world).polls| && |world.polls| == p + 1 && world.polls[p] == PollProtocol.Poll(machine, Polling)
      ensures machine in old(world).core.healthy ==> Closed(world.core, machine)
    {
      p := |world.polls|;
      if machine in healthy && !healthy[machine] {
        healthy := healthy[machine := true];
      }
      assert healthy == CloseHealthy(world.core, machine).healthy;
      Advance(CallPoll(machine));
    }

    method TakeCommand(p: nat) returns (cmd: Command)
      requires Valid() && p < |world.polls| && world.polls[p].pc == Polling
      requires world.polls[p].machine in queues && queues[world.polls[p].machine] != []
      modifies this
      ensures Valid() && Further(history, old(history)) && Got(world, p, old(world).polls[p].machine, Some(cmd))
    {
      var machine := world.polls[p].machine;
      assert queues[machine] == Lookup(queues, machine) == Lookup(world.core.queues, machine);
      cmd := queues[machine][0];
      QueuesSet(queues, world.core.queues, machine, queues[machine][1..]);
      queues := queues[machine := queues[machine][1..]];
      Advance(PollTake(p));
    }

    method TimeOut(p: nat)
      requires Valid() && p < |world.polls| && world.polls[p].pc == Polling
      requires Lookup(world.core.queues, world.polls[p].machine) == []
      modifies this
      ensures Valid() && history == Then(old(history), PollTimeout(p), world)
      ensures Got(world, p, old(world).polls[p].machine, None) && world.core == old(world).core
    {
      Advance(PollTimeout(p));
    }

    /** The select of Poll. */
    method TakeOrTimeOut(p: nat) returns (r: Option<Command>)
      requires Valid() && p < |world.polls| && world.polls[p].pc == Polling
      modifies this
      ensures Valid() && Further(history, old(history)) && Got(world, p, old(world).polls[p].machine, r)
      ensures r.None? ==> GaveUpEmpty(history, p, old(world).polls[p].machine)
    {
      var q := GetQueue(world.polls[p].machine);
      if q != [] {
        var cmd := TakeCommand(p);
        r := Some(cmd);
      } else {
        TimeOut(p);
        r := None;
      }
    }

    /** Poll: the oldest command, or nothing if there was none until the timeout. If there was a
        channel for the machine, its agent now counts as connected. */
    method Poll(machine: string) returns (r: Option<Command>, p: nat)
      requires Valid()
      modifies this
      ensures Valid() && Further(history, old(history)) && p == |old(world).polls| && Got(world, p, machine, r)
      ensures r.None? ==> GaveUpEmpty(history, p, machine)
      ensures machine in old(world).core.healthy ==> Closed(world.core, machine)
    {
      p := BeginPoll(machine);
      ghost var begun := history;
      Others(PollCall(p));
      r := TakeOrTimeOut(p);
      assert Extends(begun, begun);
      if machine in old(world).core.healthy { ClosedSince(history, begun, machine); }
    }

    method FindChannel(report: Report) returns (d: nat)
      requires Valid()
      modifies this
      ensures Valid() && history == Then(old(history), CallDeliver(report), world)
      ensures d == |old(world).deliveries| && d < |world.deliveries|
      ensures world.deliveries[d] == Delivery(report, ChannelFor(old(world).core, report), false)
    {
      d := |world.deliveries|;
      var channel := if report.commandID in results then Some(results[report.commandID]) else None;
      assert channel == ChannelFor(world.core, report);
      Advance(CallDeliver(report));
    }

    method PutReport(d: nat)
      requires Valid() && d < |world.deliveries| && !world.deliveries[d].done
      modifies this
      ensures Valid() && history == Then(old(history), Put(d), world)
      ensures |world.deliveries| == |old(world).deliveries|
      ensures world.deliveries[d] == old(world).deliveries[d].(done := true)
    {
      Advance(Put(d));
    }

    /** DeliverReport: look the channel up, then offer it the report. */
    method DeliverReport(report: Report) returns (d: nat)
      requires Valid()
      modifies this
      ensures Valid() && Further(history, old(history)) && d == |old(world).deliveries| && d < |world.deliveries|
      ensures world.deliveries[d] == Delivery(report, ChannelFor(old(world).core, report), true)
    {
      d := FindChannel(report);
      Others(DeliverCall(d));
      PutReport(d);
    }
  }
}
