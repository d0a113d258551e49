/** The command protocol of internal/domain/agent/client_poll.go as a transition system: any
    number of concurrent Send, SendAll, Poll and DeliverReport calls, each split where the
    mutex is released or a channel operation may block. */
module PollProtocol {
  import opened Wrappers
  import opened Decimal

  datatype Command = Command(id: string, action: string)

  datatype ReportStatus = Running | Completed | Failed

  datatype Report = Report(commandID: string, status: ReportStatus, error: string)

  const QUEUE_SIZE: nat := 8

  /** The client's fields. A result channel is named by the Send call that made it; it holds
      at most one report. `healthy` tells whether the machine's channel is closed. */
  datatype Core = Core(
    queues: map<string, seq<Command>>,
    results: map<string, nat>,
    healthy: map<string, bool>,
    cmdSeq: nat)

  datatype Outcome = Nil | CommandFailed(error: string) | ContextDone | AgentTimeout

  /** Where a Send call stands: before it has an id, before waitForAgent, in its select, past
      it, registered and enqueueing, awaiting the report, about to unregister, returned. */
  datatype SendPc =
    | New | Named | WaitingAgent | Connected | Enqueueing | Awaiting
    | Leaving(outcome: Outcome) | Returned(outcome: Outcome)

  /** One Send call and its result channel: `seqNo` is the number its id was made from (0 for
      an id given by the caller), `queued` whether the command was enqueued, `buf` the
      channel's content, `first` the first report ever put into it, `got` the report Send received. */
  datatype Send = Send(
    target: string,
    cmd: Command,
    seqNo: nat,
    pc: SendPc,
    ctxDone: bool,
    queued: bool,
    buf: Option<Report>,
    first: Option<Report>,
    got: Option<Report>,
    group: Option<nat>)

  /** A DeliverReport call after its lookup. */
  datatype Delivery = Delivery(report: Report, channel: Option<nat>, done: bool)

  /** A Poll call; the command it got was the `index`-th handed out for its machine. */
  datatype PollPc = Polling | PollGot(cmd: Command, index: nat) | PollNothing

  datatype Poll = Poll(machine: string, pc: PollPc)

  /** A SendAll call: it started the sends from `lo` to `hi - 1`; the ones it has collected,
      and the first error. */
  datatype Group = Group(lo: nat, hi: nat, collected: set<nat>, firstErr: Option<Outcome>)

  datatype State = State(
    core: Core,
    sends: seq<Send>,
    deliveries: seq<Delivery>,
    polls: seq<Poll>,
    groups: seq<Group>,
    enqueued: map<string, seq<Command>>,
    polled: map<string, seq<Command>>,
    closes: map<string, nat>)

  datatype Action =
    | CallSend(target: string, explicitID: string, action: string)
    | CallSendAll(targets: seq<string>, explicitID: string, action: string)
    | PickID(s: nat)
    | EnterWait(s: nat)
    | AgentSeen(s: nat)
    | AgentLate(s: nat)
    | WaitCancelled(s: nat)
    | Register(s: nat)
    | Enqueue(s: nat)
    | EnqueueCancelled(s: nat)
    | Receive(s: nat)
    | AwaitCancelled(s: nat)
    | Unregister(s: nat)
    | CancelContext(s: nat)
    | Collect(s: nat)
    | MarkAgentReady(machine: string)
    | CallPoll(machine: string)
    | PollTake(p: nat)
    | PollTimeout(p: nat)
    | CallDeliver(report: Report)
    | Put(d: nat)

  // ---- operations on the fields ----

  function Lookup<T>(m: map<string, seq<T>>, k: string): seq<T> {
    if k in m then m[k] else []
  }

  /** `cmd-<target>-<n>` */
  function AutoID(target: string, n: nat): string {
    "cmd-" + target + "-" + Numeral(n)
  }

  /** An id given by the caller is kept; otherwise the counter makes one. */
  function NextSeq(core: Core, id: string): Core {
    if id == "" then core.(cmdSeq := core.cmdSeq + 1) else core
  }

  function PickedID(core: Core, target: string, id: string): string {
    if id == "" then AutoID(target, core.cmdSeq + 1) else id
  }

  /** MarkAgentReady, and the first part of waitForAgent. */
  function EnsureHealthy(core: Core, machine: string): Core {
    if machine in core.healthy then core else core.(healthy := core.healthy[machine := false])
  }

  /** The first part of Poll: close the machine's channel if it exists and is open. */
  function CloseHealthy(core: Core, machine: string): Core {
    if machine in core.healthy then core.(healthy := core.healthy[machine := true]) else core
  }

  function AddResult(core: Core, id: string, s: nat): Core {
    core.(results := core.results[id := s])
  }

  function RemoveResult(core: Core, id: string): Core {
    core.(results := core.results - {id})
  }

  function PushCommand(core: Core, machine: string, cmd: Command): Core {
    core.(queues := core.queues[machine := Lookup(core.queues, machine) + [cmd]])
  }

  function PopCommand(core: Core, machine: string): Core
    requires Lookup(core.queues, machine) != []
  {
    core.(queues := core.queues[machine := core.queues[machine][1..]])
  }

  function ChannelFor(core: Core, report: Report): Option<nat> {
    if report.commandID in core.results then Some(core.results[report.commandID]) else None
  }

  // ---- the transition system ----

  const INITIAL: State := State(Core(map[], map[], map[], 0), [], [], [], [], map[], map[], map[])

  function NewSend(target: string, explicitID: string, action: string, group: Option<nat>): Send {
    Send(target, Command(explicitID, action), 0, New, false, false, None, None, None, group)
  }

  function With(st: State, s: nat, snd: Send): State
    requires s < |st.sends|
  {
    st.(sends := st.sends[s := snd])
  }

  predicate At(st: State, s: nat, pc: SendPc) {
    s < |st.sends| && st.sends[s].pc == pc
  }

  /** The machine has a channel, and its agent has polled since. */
  predicate Closed(core: Core, machine: string) {
    machine in core.healthy && core.healthy[machine]
  }

  /** A select that finds something ready takes it at once. So a deadline ends the wait for an
      agent only while the agent's channel is open, and a Poll only while the queue is empty. */
  predicate Enabled(st: State, a: Action) {
    match a
    case CallSend(_, _, _) => true
    case CallSendAll(_, _, _) => true
    case PickID(s) => At(st, s, New)
    case EnterWait(s) => At(st, s, Named)
    case AgentSeen(s) => At(st, s, WaitingAgent) && Closed(st.core, st.sends[s].target)
    case AgentLate(s) => At(st, s, WaitingAgent) && !Closed(st.core, st.sends[s].target)
    case WaitCancelled(s) => At(st, s, WaitingAgent) && st.sends[s].ctxDone
    case Register(s) => At(st, s, Connected)
    case Enqueue(s) => At(st, s, Enqueueing) && |Lookup(st.core.queues, st.sends[s].target)| < QUEUE_SIZE
    case EnqueueCancelled(s) => At(st, s, Enqueueing) && st.sends[s].ctxDone
    case Receive(s) => At(st, s, Awaiting) && st.sends[s].buf.Some?
    case AwaitCancelled(s) => At(st, s, Awaiting) && st.sends[s].ctxDone
    case Unregister(s) => s < |st.sends| && st.sends[s].pc.Leaving?
    case CancelContext(s) => s < |st.sends| && !st.sends[s].ctxDone
    case Collect(s) =>
      s < |st.sends| && st.sends[s].pc.Returned? && st.sends[s].group.Some?
      && st.sends[s].group.value < |st.groups| && s !in st.groups[st.sends[s].group.value].collected
    case MarkAgentReady(_) => true
    case CallPoll(_) => true
    case PollTake(p) => p < |st.polls| && st.polls[p].pc.Polling? && Lookup(st.core.queues, st.polls[p].machine) != []
    case PollTimeout(p) =>
      p < |st.polls| && st.polls[p].pc.Polling? && Lookup(st.core.queues, st.polls[p].machine) == []
    case CallDeliver(_) => true
    case Put(d) => d < |st.deliveries| && !st.deliveries[d].done
  }

  function OutcomeOf(report: Report): Outcome {
    if report.status == Failed then CommandFailed(report.error) else Nil
  }

  /** Collecting one result of a SendAll: the first error is kept and cancels the others. */
  function CollectResult(st: State, s: nat): State
    requires Enabled(st, Collect(s))
  {
    var g := st.sends[s].group.value;
    var group := st.groups[g];
    var outcome := st.sends[s].pc.outcome;
    var first := outcome != Nil && group.firstErr.None?;
    var error := if first then Some(outcome) else group.firstErr;
    var after := group.(collected := group.collected + {s}, firstErr := error);
    st.(groups := st.groups[g := after],
        sends := if first then CancelMembers(st.sends, group) else st.sends)
  }

  function CancelMembers(sends: seq<Send>, g: Group): seq<Send> {
    seq(|sends|, i requires 0 <= i < |sends| => if g.lo <= i < g.hi then sends[i].(ctxDone := true) else sends[i])
  }

  /** A Send of a SendAll has its context in common with the others. */
  function EndContext(st: State, s: nat): seq<Send>
    requires s < |st.sends|
  {
    var snd := st.sends[s];
    if snd.group.Some? && snd.group.value < |st.groups| then CancelMembers(st.sends, st.groups[snd.group.value])
    else st.sends[s := snd.(ctxDone := true)]
  }

  function PutReport(st: State, d: nat): State
    requires Enabled(st, Put(d))
  {
    var del := st.deliveries[d];
    var t := st.(deliveries := st.deliveries[d := del.(done := true)]);
    if del.channel.Some? && del.channel.value < |st.sends| && st.sends[del.channel.value].buf.None? then
      var snd := st.sends[del.channel.value];
      var first := if snd.first.Some? then snd.first else Some(del.report);
      With(t, del.channel.value, snd.(buf := Some(del.report), first := first))
    else t
  }

  function Apply(st: State, a: Action): State
    requires Enabled(st, a)
  {
    match a
    case CallSend(target, explicitID, action) => st.(sends := st.sends + [NewSend(target, explicitID, action, None)])
    case CallSendAll(targets, explicitID, action) =>
      var g := |st.groups|;
      var started := seq(|targets|, i requires 0 <= i < |targets| => NewSend(targets[i], explicitID, action, Some(g)));
      st.(sends := st.sends + started, groups := st.groups + [Group(|st.sends|, |st.sends| + |targets|, {}, None)])
    case PickID(s) =>
      var snd := st.sends[s];
      var named := snd.(pc := Named, cmd := snd.cmd.(id := PickedID(st.core, snd.target, snd.cmd.id)),
                        seqNo := if snd.cmd.id == "" then st.core.cmdSeq + 1 else 0);
      With(st, s, named).(core := NextSeq(st.core, snd.cmd.id))
    case EnterWait(s) =>
      With(st, s, st.sends[s].(pc := WaitingAgent)).(core := EnsureHealthy(st.core, st.sends[s].target))
    case AgentSeen(s) => With(st, s, st.sends[s].(pc := Connected))
    case AgentLate(s) => With(st, s, st.sends[s].(pc := Returned(AgentTimeout)))
    case WaitCancelled(s) => With(st, s, st.sends[s].(pc := Returned(ContextDone)))
    case Register(s) =>
      With(st, s, st.sends[s].(pc := Enqueueing)).(core := AddResult(st.core, st.sends[s].cmd.id, s))
    case Enqueue(s) =>
      var snd := st.sends[s];
      With(st, s, snd.(pc := Awaiting, queued := true)).(
        core := PushCommand(st.core, snd.target, snd.cmd),
        enqueued := st.enqueued[snd.target := Lookup(st.enqueued, snd.target) + [snd.cmd]])
    case EnqueueCancelled(s) => With(st, s, st.sends[s].(pc := Leaving(ContextDone)))
    case Receive(s) =>
      var snd := st.sends[s];
      With(st, s, snd.(pc := Leaving(OutcomeOf(snd.buf.value)), buf := None, got := snd.buf))
    case AwaitCancelled(s) => With(st, s, st.sends[s].(pc := Leaving(ContextDone)))
    case Unregister(s) =>
      var snd := st.sends[s];
      With(st, s, snd.(pc := Returned(snd.pc.outcome))).(core := RemoveResult(st.core, snd.cmd.id))
    case CancelContext(s) => st.(sends := EndContext(st, s))
    case Collect(s) => CollectResult(st, s)
    case MarkAgentReady(machine) => st.(core := EnsureHealthy(st.core, machine))
    case CallPoll(machine) =>
      var closing := machine in st.core.healthy && !st.core.healthy[machine];
      var closed := if machine in st.closes then st.closes[machine] else 0;
      st.(core := CloseHealthy(st.core, machine), polls := st.polls + [Poll(machine, Polling)],
          closes := if closing then st.closes[machine := closed + 1] else st.closes)
    case PollTake(p) =>
      var m := st.polls[p].machine;
      var cmd := Lookup(st.core.queues, m)[0];
      st.(core := PopCommand(st.core, m), polls := st.polls[p := Poll(m, PollGot(cmd, |Lookup(st.polled, m)|))],
          polled := st.polled[m := Lookup(st.polled, m) + [cmd]])
    case PollTimeout(p) => st.(polls := st.polls[p := Poll(st.polls[p].machine, PollNothing)])
    case CallDeliver(report) =>
      st.(deliveries := st.deliveries + [Delivery(report, ChannelFor(st.core, report), false)])
    case Put(d) => PutReport(st, d)
  }

  predicate Legal(st: State, acts: seq<Action>)
    decreases |acts|
  {
    acts != [] ==> Enabled(st, acts[0]) && Legal(Apply(st, acts[0]), acts[1..])
  }

  function Final(st: State, acts: seq<Action>): State
    requires Legal(st, acts)
    decreases |acts|
  {
    if acts == [] then st else Final(Apply(st, acts[0]), acts[1..])
  }
}
