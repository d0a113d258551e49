/** The inductive invariant of the command protocol. It holds in every run in which no Send
    picks an id that is already in use; automatically generated ids never are. */
module PollInvariant {
  import opened Wrappers
  import opened Decimal
  import opened PollProtocol

  predicate HasID(pc: SendPc) {
    !pc.New?
  }

  /** From registering until the deferred removal. */
  predicate Live(pc: SendPc) {
    pc.Enqueueing? || pc.Awaiting? || pc.Leaving?
  }

  predicate BeforeRegister(pc: SendPc) {
    pc.New? || pc.Named? || pc.WaitingAgent? || pc.Connected?
  }

  // ---- ids and registration ----

  ghost predicate DistinctIDs(sends: seq<Send>) {
    forall i, j :: 0 <= i < j < |sends| && HasID(sends[i].pc) && HasID(sends[j].pc) ==>
        sends[i].cmd.id != sends[j].cmd.id
  }

  /** A live Send is the one its id leads to, and every entry leads to a live Send. */
  ghost predicate RegistryOk(core: Core, sends: seq<Send>) {
    && (forall i :: 0 <= i < |sends| && Live(sends[i].pc) ==>
        sends[i].cmd.id in core.results && core.results[sends[i].cmd.id] == i)
    && (forall id :: id in core.results ==>
          core.results[id] < |sends| && Live(sends[core.results[id]].pc) && sends[core.results[id]].cmd.id == id)
  }

  /** The next id to be picked is not in use. */
  ghost predicate FreshPick(st: State, a: Action)
    requires Enabled(st, a)
  {
    a.PickID? ==> forall i :: 0 <= i < |st.sends| && HasID(st.sends[i].pc) ==>
      st.sends[i].cmd.id != PickedID(st.core, st.sends[a.s].target, st.sends[a.s].cmd.id)
  }

  // ---- one Send and its channel ----

  ghost predicate ChannelOk(snd: Send) {
    && (BeforeRegister(snd.pc) ==> snd.buf == snd.first == snd.got == None && !snd.queued)
    && (snd.buf.Some? ==> snd.first.Some? && snd.buf.value.commandID == snd.cmd.id)
    && (snd.first.Some? ==> snd.first.value.commandID == snd.cmd.id)
    && (snd.first.Some? && snd.got.None? ==> snd.buf == snd.first)
    && (snd.got.Some? ==> snd.first == snd.got)
  }

  ghost predicate OutcomeOk(snd: Send, o: Outcome) {
    match o
    case Nil => snd.got.Some? && snd.got.value.status != Failed
    case CommandFailed(e) => snd.got.Some? && snd.got.value.status == Failed && snd.got.value.error == e
    case ContextDone => snd.ctxDone && snd.got.None?
    case AgentTimeout => snd.got.None? && !snd.queued
  }

  ghost predicate ProgressOk(snd: Send) {
    && (snd.pc.Leaving? ==> OutcomeOk(snd, snd.pc.outcome))
    && (snd.pc.Returned? ==> OutcomeOk(snd, snd.pc.outcome))
    && (snd.pc.Awaiting? || snd.pc.Enqueueing? ==> snd.got.None?)
    && (snd.pc.Awaiting? ==> snd.queued)
    && (snd.pc.Enqueueing? ==> !snd.queued)
    && (snd.got.Some? ==> snd.queued)
  }

  ghost predicate SendsOk(sends: seq<Send>) {
    forall i :: 0 <= i < |sends| ==> ChannelOk(sends[i]) && ProgressOk(sends[i])
  }

  /** A delivery only ever reaches the Send whose id the report carries; once it has put its
      report, that Send has a first report. */
  ghost predicate DeliveryOk(sends: seq<Send>, d: Delivery) {
    d.channel.Some? ==>
      && d.channel.value < |sends|
      && !BeforeRegister(sends[d.channel.value].pc)
      && sends[d.channel.value].cmd.id == d.report.commandID
      && (d.done ==> sends[d.channel.value].first.Some?)
  }

  ghost predicate DeliveriesOk(st: State) {
    forall k :: 0 <= k < |st.deliveries| ==> DeliveryOk(st.sends, st.deliveries[k])
  }

  ghost predicate CoreInv(st: State) {
    DistinctIDs(st.sends) && RegistryOk(st.core, st.sends) && SendsOk(st.sends) && DeliveriesOk(st)
  }

  // ---- preservation ----

  /** Steps of one Send keep its identity and never lose its first report. */
  ghost predicate Continues(before: Send, after: Send) {
    && after.target == before.target && after.group == before.group
    && (HasID(before.pc) ==> after.cmd == before.cmd && HasID(after.pc))
    && (!BeforeRegister(before.pc) ==> !BeforeRegister(after.pc))
    && (before.first.Some? ==> after.first == before.first)
    && (before.queued ==> after.queued)
    && (before.ctxDone ==> after.ctxDone)
    && (before.pc.Returned? ==> after.pc == before.pc)
  }

  ghost predicate AllContinue(a: seq<Send>, b: seq<Send>) {
    |a| <= |b| && forall i :: 0 <= i < |a| ==> Continues(a[i], b[i])
  }

  lemma StepContinues(st: State, a: Action)
    requires Enabled(st, a)
    ensures AllContinue(st.sends, Apply(st, a).sends)
  {
    if Own(a) {
      OwnFrame(st, a);
      OwnContinues(st, a);
    } else {
      OtherContinues(st, a);
    }
  }

  lemma OwnContinues(st: State, a: Action)
    requires Own(a) && Enabled(st, a) && a.s < |Apply(st, a).sends|
    ensures Continues(st.sends[a.s], Apply(st, a).sends[a.s])
  {
  }

  lemma OtherContinues(st: State, a: Action)
    requires !Own(a) && Enabled(st, a)
    ensures AllContinue(st.sends, Apply(st, a).sends)
  {
  }

  /** Steps of one Send call. Its context ends elsewhere. */
  predicate Own(a: Action) {
    a.PickID? || a.EnterWait? || a.AgentSeen? || a.AgentLate? || a.WaitCancelled? || a.Register? || a.Enqueue?
    || a.EnqueueCancelled? || a.Receive? || a.AwaitCancelled? || a.Unregister?
  }

  lemma OwnFrame(st: State, a: Action)
    requires Own(a) && Enabled(st, a)
    ensures a.s < |st.sends| == |Apply(st, a).sends|
    ensures forall i :: 0 <= i < |st.sends| && i != a.s ==> Apply(st, a).sends[i] == st.sends[i]
    ensures Apply(st, a).deliveries == st.deliveries
  {
  }

  lemma OwnSend(st: State, a: Action)
    requires Own(a) && Enabled(st, a) && a.s < |st.sends| && ChannelOk(st.sends[a.s]) && ProgressOk(st.sends[a.s])
    ensures var snd := Apply(st, a).sends[a.s]; ChannelOk(snd) && ProgressOk(snd)
  {
  }

  lemma PutElsewhere(st: State, d: nat, i: nat)
    requires Enabled(st, Put(d)) && i < |st.sends| && st.deliveries[d].channel != Some(i)
    ensures Apply(st, Put(d)).sends[i] == st.sends[i]
  {
  }

  lemma PutHere(st: State, d: nat, i: nat)
    requires Enabled(st, Put(d)) && i < |st.sends| && st.deliveries[d].channel == Some(i)
    requires ChannelOk(st.sends[i]) && ProgressOk(st.sends[i]) && DeliveryOk(st.sends, st.deliveries[d])
    ensures var snd := Apply(st, Put(d)).sends[i]; ChannelOk(snd) && ProgressOk(snd)
  {
  }

  lemma PutSend(st: State, d: nat, i: nat)
    requires Enabled(st, Put(d)) && i < |st.sends|
    requires ChannelOk(st.sends[i]) && ProgressOk(st.sends[i]) && DeliveryOk(st.sends, st.deliveries[d])
    ensures var snd := Apply(st, Put(d)).sends[i]; ChannelOk(snd) && ProgressOk(snd)
  {
    if st.deliveries[d].channel == Some(i) {
      PutHere(st, d, i);
    } else {
      PutElsewhere(st, d, i);
    }
  }

  lemma StepSends(st: State, a: Action)
    requires Enabled(st, a) && SendsOk(st.sends) && DeliveriesOk(st)
    ensures SendsOk(Apply(st, a).sends)
  {
    if Own(a) {
      OwnFrame(st, a);
      OwnSend(st, a);
    } else if a.Put? {
      forall i | 0 <= i < |st.sends|
        ensures ChannelOk(Apply(st, a).sends[i]) && ProgressOk(Apply(st, a).sends[i])
      {
        PutSend(st, a.d, i);
      }
    }
  }

  lemma DeliveryKept(a: seq<Send>, b: seq<Send>, d: Delivery)
    requires AllContinue(a, b) && DeliveryOk(a, d)
    ensures DeliveryOk(b, d)
  {
  }

  lemma PutDelivers(st: State, d: nat)
    requires Enabled(st, Put(d)) && SendsOk(st.sends) && DeliveryOk(st.sends, st.deliveries[d])
    ensures DeliveryOk(Apply(st, Put(d)).sends, Apply(st, Put(d)).deliveries[d])
  {
    var c := st.deliveries[d].channel;
    if c.Some? {
      assert ChannelOk(st.sends[c.value]);
    }
  }

  lemma StepDeliveries(st: State, a: Action)
    requires Enabled(st, a) && DeliveriesOk(st) && SendsOk(st.sends) && RegistryOk(st.core, st.sends)
    ensures DeliveriesOk(Apply(st, a))
  {
    StepContinues(st, a);
    var t := Apply(st, a);
    forall k | 0 <= k < |t.deliveries|
      ensures DeliveryOk(t.sends, t.deliveries[k])
    {
      if a.Put? && k == a.d {
        PutDelivers(st, k);
      } else if k < |st.deliveries| {
        DeliveryKept(st.sends, t.sends, st.deliveries[k]);
      }
    }
  }

  lemma StepIDs(st: State, a: Action)
    requires Enabled(st, a) && DistinctIDs(st.sends) && FreshPick(st, a)
    ensures DistinctIDs(Apply(st, a).sends)
  {
    if a.PickID? {
      OwnFrame(st, a);
    } else {
      NamesFrame(st, a);
    }
  }

  /** No Send got a new name. */
  ghost predicate SameNames(a: seq<Send>, b: seq<Send>) {
    && |a| <= |b|
    && (forall i :: 0 <= i < |a| ==>
          b[i].target == a[i].target && b[i].cmd == a[i].cmd && b[i].seqNo == a[i].seqNo
              && HasID(b[i].pc) == HasID(a[i].pc))
    && (forall i :: |a| <= i < |b| ==> b[i].pc == New)
  }

  lemma NamesFrame(st: State, a: Action)
    requires Enabled(st, a) && !a.PickID?
    ensures SameNames(st.sends, Apply(st, a).sends)
  {
    if Own(a) {
      OwnFrame(st, a);
      OwnName(st, a);
    } else {
      OtherNames(st, a);
    }
  }

  lemma OwnName(st: State, a: Action)
    requires Own(a) && Enabled(st, a) && !a.PickID? && a.s < |Apply(st, a).sends|
    ensures var x, y := st.sends[a.s], Apply(st, a).sends[a.s];
            y.target == x.target && y.cmd == x.cmd && y.seqNo == x.seqNo && HasID(y.pc) == HasID(x.pc)
  {
  }

  lemma OtherNames(st: State, a: Action)
    requires !Own(a) && Enabled(st, a)
    ensures SameNames(st.sends, Apply(st, a).sends)
  {
  }

  /** Only registering and unregistering change the registry. */
  ghost predicate SameLife(a: Send, b: Send) {
    Live(b.pc) == Live(a.pc) && (Live(a.pc) ==> b.cmd == a.cmd)
  }

  lemma OwnLife(st: State, a: Action)
    requires Own(a) && Enabled(st, a) && !a.Register? && !a.Unregister? && a.s < |Apply(st, a).sends|
    ensures Apply(st, a).core.results == st.core.results && SameLife(st.sends[a.s], Apply(st, a).sends[a.s])
  {
  }

  lemma LifeKept(a: State, b: State, s: nat)
    requires RegistryOk(a.core, a.sends) && b.core.results == a.core.results && s < |a.sends| == |b.sends|
    requires forall i :: 0 <= i < |a.sends| && i != s ==> b.sends[i] == a.sends[i]
    requires SameLife(a.sends[s], b.sends[s])
    ensures RegistryOk(b.core, b.sends)
  {
  }

  lemma Registers(st: State, s: nat)
    requires Enabled(st, Register(s)) && DistinctIDs(st.sends) && RegistryOk(st.core, st.sends)
    ensures RegistryOk(Apply(st, Register(s)).core, Apply(st, Register(s)).sends)
  {
  }

  lemma Unregisters(st: State, s: nat)
    requires Enabled(st, Unregister(s)) && DistinctIDs(st.sends) && RegistryOk(st.core, st.sends)
    ensures RegistryOk(Apply(st, Unregister(s)).core, Apply(st, Unregister(s)).sends)
  {
  }

  lemma OwnRegistry(st: State, a: Action)
    requires Own(a) && Enabled(st, a) && DistinctIDs(st.sends) && RegistryOk(st.core, st.sends)
    ensures RegistryOk(Apply(st, a).core, Apply(st, a).sends)
  {
    if a.Register? {
      Registers(st, a.s);
    } else if a.Unregister? {
      Unregisters(st, a.s);
    } else {
      OwnFrame(st, a);
      OwnLife(st, a);
      LifeKept(st, Apply(st, a), a.s);
    }
  }

  ghost predicate SameCalls(a: State, b: State) {
    && b.core.results == a.core.results && |a.sends| <= |b.sends|
    && (forall i :: 0 <= i < |a.sends| ==> b.sends[i].pc == a.sends[i].pc && b.sends[i].cmd == a.sends[i].cmd)
    && (forall i :: |a.sends| <= i < |b.sends| ==> b.sends[i].pc == New)
  }

  lemma OtherFrame(st: State, a: Action)
    requires !Own(a) && Enabled(st, a)
    ensures SameCalls(st, Apply(st, a))
  {
  }

  lemma RegistryKept(a: State, b: State)
    requires RegistryOk(a.core, a.sends) && SameCalls(a, b)
    ensures RegistryOk(b.core, b.sends)
  {
  }

  lemma StepRegistry(st: State, a: Action)
    requires Enabled(st, a) && DistinctIDs(st.sends) && RegistryOk(st.core, st.sends)
    ensures RegistryOk(Apply(st, a).core, Apply(st, a).sends)
  {
    if Own(a) {
      OwnRegistry(st, a);
    } else {
      OtherFrame(st, a);
      RegistryKept(st, Apply(st, a));
    }
  }

  lemma StepInv(st: State, a: Action)
    requires Enabled(st, a) && CoreInv(st) && FreshPick(st, a)
    ensures CoreInv(Apply(st, a))
  {
    StepIDs(st, a);
    StepRegistry(st, a);
    StepSends(st, a);
    StepDeliveries(st, a);
  }

  // ---- queues ----

  /** Per machine, what was enqueued is what was polled followed by what is queued. */
  ghost predicate FifoOk(st: State) {
    forall m :: Lookup(st.enqueued, m) == Lookup(st.polled, m) + Lookup(st.core.queues, m)
                && |Lookup(st.core.queues, m)| <= QUEUE_SIZE
  }

  ghost predicate FromSend(sends: seq<Send>, m: string, cmd: Command) {
    exists i :: 0 <= i < |sends| && sends[i].target == m && sends[i].cmd == cmd && sends[i].queued && HasID(sends[i].pc)
  }

  /** Each enqueued command belongs to a Send for that machine; none was enqueued twice. */
  ghost predicate EnqueuedOk(st: State) {
    && (forall m, k :: 0 <= k < |Lookup(st.enqueued, m)| ==> FromSend(st.sends, m, Lookup(st.enqueued, m)[k]))
    && (forall m, j, k :: 0 <= j < k < |Lookup(st.enqueued, m)| ==>
        Lookup(st.enqueued, m)[j].id != Lookup(st.enqueued, m)[k].id)
  }

  predicate SameMachineGot(p: Poll, q: Poll) {
    p.pc.PollGot? && q.pc.PollGot? && p.machine == q.machine
  }

  /** A command a Poll got is the one at its place in the polled order, and no other Poll has
      that place. */
  ghost predicate PollsOk(st: State) {
    && (forall p :: 0 <= p < |st.polls| && st.polls[p].pc.PollGot? ==>
          st.polls[p].pc.index < |Lookup(st.polled, st.polls[p].machine)|
          && Lookup(st.polled, st.polls[p].machine)[st.polls[p].pc.index] == st.polls[p].pc.cmd)
    && (forall p, q :: 0 <= p < q < |st.polls| && SameMachineGot(st.polls[p], st.polls[q]) ==>
          st.polls[p].pc.index != st.polls[q].pc.index)
  }

  lemma FromSendKept(a: seq<Send>, b: seq<Send>, m: string, cmd: Command)
    requires AllContinue(a, b) && FromSend(a, m, cmd)
    ensures FromSend(b, m, cmd)
  {
    var i :| 0 <= i < |a| && a[i].target == m && a[i].cmd == cmd && a[i].queued && HasID(a[i].pc);
    assert Continues(a[i], b[i]);
  }

  lemma Enqueues(st: State, s: nat)
    requires Enabled(st, Enqueue(s)) && FifoOk(st)
    ensures FifoOk(Apply(st, Enqueue(s)))
  {
    var t := Apply(st, Enqueue(s));
    forall m
      ensures Lookup(t.enqueued, m) == Lookup(t.polled, m) + Lookup(t.core.queues, m)
          && |Lookup(t.core.queues, m)| <= QUEUE_SIZE
    {
      assert Lookup(st.enqueued, m) == Lookup(st.polled, m) + Lookup(st.core.queues, m);
    }
  }

  lemma PollTakes(st: State, p: nat)
    requires Enabled(st, PollTake(p)) && FifoOk(st)
    ensures FifoOk(Apply(st, PollTake(p)))
  {
    var t := Apply(st, PollTake(p));
    forall m
      ensures Lookup(t.enqueued, m) == Lookup(t.polled, m) + Lookup(t.core.queues, m)
          && |Lookup(t.core.queues, m)| <= QUEUE_SIZE
    {
      assert Lookup(st.enqueued, m) == Lookup(st.polled, m) + Lookup(st.core.queues, m);
    }
  }

  lemma StepFifo(st: State, a: Action)
    requires Enabled(st, a) && FifoOk(st)
    ensures FifoOk(Apply(st, a))
  {
    if a.Enqueue? {
      Enqueues(st, a.s);
    } else if a.PollTake? {
      PollTakes(st, a.p);
    } else {
      QueuesFrame(st, a);
      assert forall m :: Lookup(st.enqueued, m) == Lookup(st.polled, m) + Lookup(st.core.queues, m);
    }
  }

  lemma QueuesFrame(st: State, a: Action)
    requires Enabled(st, a) && !a.Enqueue? && !a.PollTake?
    ensures var t := Apply(st, a);
            t.enqueued == st.enqueued && t.polled == st.polled && t.core.queues == st.core.queues
  {
    if Own(a) { OwnQueues(st, a); }
  }

  lemma OwnQueues(st: State, a: Action)
    requires Own(a) && Enabled(st, a) && !a.Enqueue?
    ensures var t := Apply(st, a);
            t.enqueued == st.enqueued && t.polled == st.polled && t.core.queues == st.core.queues
  {
  }

  lemma StepPolls(st: State, a: Action)
    requires Enabled(st, a) && PollsOk(st)
    ensures PollsOk(Apply(st, a))
  {
    if a.PollTake? {
      PollTaken(st, a.p);
    } else {
      PollsFrame(st, a);
      PollsKept(st, Apply(st, a));
    }
  }

  ghost predicate NoneTaken(a: State, b: State) {
    b.polled == a.polled
    && forall p :: 0 <= p < |b.polls| && b.polls[p].pc.PollGot? ==> p < |a.polls| && b.polls[p] == a.polls[p]
  }

  lemma PollsFrame(st: State, a: Action)
    requires Enabled(st, a) && !a.PollTake?
    ensures NoneTaken(st, Apply(st, a))
  {
  }

  lemma PollsKept(a: State, b: State)
    requires PollsOk(a) && NoneTaken(a, b)
    ensures PollsOk(b)
  {
  }

  lemma PollTaken(st: State, p: nat)
    requires Enabled(st, PollTake(p)) && PollsOk(st)
    ensures PollsOk(Apply(st, PollTake(p)))
  {
  }

  lemma NotYetEnqueued(st: State, s: nat, k: nat)
    requires s < |st.sends| && st.sends[s].pc.Enqueueing? && ProgressOk(st.sends[s]) && DistinctIDs(st.sends)
        && EnqueuedOk(st)
    requires k < |Lookup(st.enqueued, st.sends[s].target)|
    ensures Lookup(st.enqueued, st.sends[s].target)[k].id != st.sends[s].cmd.id
  {
    var m := st.sends[s].target;
    assert FromSend(st.sends, m, Lookup(st.enqueued, m)[k]);
    var i :| 0 <= i < |st.sends| && st.sends[i].target == m && st.sends[i].cmd == Lookup(st.enqueued, m)[k]
             && st.sends[i].queued && HasID(st.sends[i].pc);
  }

  lemma StepFromSend(st: State, a: Action)
    requires Enabled(st, a) && EnqueuedOk(st)
    ensures var t := Apply(st, a);
            forall m, k :: 0 <= k < |Lookup(t.enqueued, m)| ==> FromSend(t.sends, m, Lookup(t.enqueued, m)[k])
  {
    var t := Apply(st, a);
    StepContinues(st, a);
    forall m, k | 0 <= k < |Lookup(t.enqueued, m)|
      ensures FromSend(t.sends, m, Lookup(t.enqueued, m)[k])
    {
      if k < |Lookup(st.enqueued, m)| {
        FromSendKept(st.sends, t.sends, m, Lookup(st.enqueued, m)[k]);
      } else {
        assert t.sends[a.s].queued;
      }
    }
  }

  lemma StepEnqueued(st: State, a: Action)
    requires Enabled(st, a) && EnqueuedOk(st) && DistinctIDs(st.sends) && SendsOk(st.sends)
    ensures EnqueuedOk(Apply(st, a))
  {
    var t := Apply(st, a);
    StepFromSend(st, a);
    forall m, j, k | 0 <= j < k < |Lookup(t.enqueued, m)|
      ensures Lookup(t.enqueued, m)[j].id != Lookup(t.enqueued, m)[k].id
    {
      if k == |Lookup(st.enqueued, m)| {
        NotYetEnqueued(st, a.s, j);
      }
    }
  }

  // ---- healthy channels ----

  /** Each channel is closed at most once, and is closed exactly when it was. */
  ghost predicate HealthOk(st: State) {
    forall m :: (m in st.closes ==> st.closes[m] == 1)
        && (m in st.closes <==> m in st.core.healthy && st.core.healthy[m])
  }

  lemma HealthFrame(st: State, a: Action)
    requires Enabled(st, a) && !a.CallPoll?
    ensures Apply(st, a).closes == st.closes
    ensures Apply(st, a).core.healthy == st.core.healthy
            || exists m :: m !in st.core.healthy && Apply(st, a).core.healthy == st.core.healthy[m := false]
  {
    if Own(a) { OwnHealth(st, a); }
  }

  lemma OwnHealth(st: State, a: Action)
    requires Own(a) && Enabled(st, a)
    ensures Apply(st, a).closes == st.closes
    ensures Apply(st, a).core.healthy == st.core.healthy
            || exists m :: m !in st.core.healthy && Apply(st, a).core.healthy == st.core.healthy[m := false]
  {
  }

  lemma StepHealth(st: State, a: Action)
    requires Enabled(st, a) && HealthOk(st)
    ensures HealthOk(Apply(st, a))
  {
    if !a.CallPoll? {
      HealthFrame(st, a);
    }
  }

  // ---- SendAll ----

  ghost predicate GroupOk(sends: seq<Send>, g: nat, group: Group) {
    && group.lo <= group.hi <= |sends|
    && (forall i :: group.lo <= i < group.hi ==> sends[i].group == Some(g))
    && (forall i :: i in group.collected ==> group.lo <= i < group.hi && sends[i].pc.Returned?)
    && (group.firstErr.None? ==> forall i :: i in group.collected ==> sends[i].pc == Returned(Nil))
    && (group.firstErr.Some? ==>
          group.firstErr.value != Nil
          && exists i :: i in group.collected && sends[i].pc == Returned(group.firstErr.value))
  }

  ghost predicate GroupsOk(st: State) {
    && (forall g :: 0 <= g < |st.groups| ==> GroupOk(st.sends, g, st.groups[g]))
    && MembersOk(st)
  }

  lemma GroupKept(a: seq<Send>, b: seq<Send>, g: nat, group: Group)
    requires AllContinue(a, b) && GroupOk(a, g, group)
    ensures GroupOk(b, g, group)
  {
    if group.firstErr.Some? {
      var i :| i in group.collected && a[i].pc == Returned(group.firstErr.value) && group.firstErr.value != Nil;
      assert b[i].pc == a[i].pc;
    }
  }

  lemma CollectKept(st: State, s: nat)
    requires Enabled(st, Collect(s)) && GroupsOk(st)
    ensures var g := st.sends[s].group.value; GroupOk(st.sends, g, CollectResult(st, s).groups[g])
  {
    var g := st.sends[s].group.value;
    var before, after := st.groups[g], CollectResult(st, s).groups[g];
    assert GroupOk(st.sends, g, before);
    if before.firstErr.Some? {
      var i :| i in before.collected && st.sends[i].pc == Returned(before.firstErr.value)
          && before.firstErr.value != Nil;
      assert i in after.collected;
    } else {
      assert s in after.collected;
    }
  }

  ghost predicate MembersOk(st: State) {
    forall i :: 0 <= i < |st.sends| && st.sends[i].group.Some? ==>
      st.sends[i].group.value < |st.groups|
      && st.groups[st.sends[i].group.value].lo <= i < st.groups[st.sends[i].group.value].hi
  }

  lemma StepMembers(st: State, a: Action)
    requires Enabled(st, a) && MembersOk(st)
    ensures MembersOk(Apply(st, a))
  {
    if Own(a) {
      OwnFrame(st, a);
      OwnGroup(st, a);
    } else {
      OtherMembers(st, a);
    }
  }

  lemma OtherMembers(st: State, a: Action)
    requires !Own(a) && Enabled(st, a) && MembersOk(st)
    ensures MembersOk(Apply(st, a))
  {
  }

  lemma OwnGroup(st: State, a: Action)
    requires Own(a) && Enabled(st, a) && a.s < |Apply(st, a).sends|
    ensures Apply(st, a).sends[a.s].group == st.sends[a.s].group && Apply(st, a).groups == st.groups
  {
  }

  lemma StepGroups(st: State, a: Action)
    requires Enabled(st, a) && GroupsOk(st)
    ensures GroupsOk(Apply(st, a))
  {
    var t := Apply(st, a);
    StepMembers(st, a);
    StepContinues(st, a);
    forall g | 0 <= g < |t.groups|
      ensures GroupOk(t.sends, g, t.groups[g])
    {
      if g < |st.groups| {
        if a.Collect? && g == st.sends[a.s].group.value {
          CollectKept(st, a.s);
        }
        GroupKept(st.sends, t.sends, g, t.groups[g]);
      }
    }
  }

  // ---- what the first error of a SendAll does ----

  /** The first error ends the context of every Send of the SendAll. */
  ghost predicate FreedOk(st: State) {
    forall g, i :: 0 <= g < |st.groups| && st.groups[g].firstErr.Some? && st.groups[g].lo <= i < st.groups[g].hi ==>
      i < |st.sends| && st.sends[i].ctxDone
  }

  lemma CollectFrees(st: State, s: nat)
    requires Enabled(st, Collect(s)) && FreedOk(st) && GroupsOk(st)
    ensures FreedOk(Apply(st, Collect(s)))
  {
    assert GroupOk(st.sends, st.sends[s].group.value, st.groups[st.sends[s].group.value]);
  }

  ghost predicate SameErrors(a: seq<Group>, b: seq<Group>) {
    && |a| <= |b|
    && (forall g :: 0 <= g < |a| ==> b[g] == a[g])
    && (forall g :: |a| <= g < |b| ==> b[g].firstErr.None?)
  }

  lemma ErrorsFrame(st: State, a: Action)
    requires Enabled(st, a) && !a.Collect?
    ensures SameErrors(st.groups, Apply(st, a).groups)
  {
    if Own(a) { OwnGroup(st, a); }
  }

  lemma StepFreed(st: State, a: Action)
    requires Enabled(st, a) && FreedOk(st) && GroupsOk(st)
    ensures FreedOk(Apply(st, a))
  {
    if a.Collect? {
      CollectFrees(st, a.s);
    } else {
      ErrorsFrame(st, a);
      StepContinues(st, a);
    }
  }
}
