/** What happens when two Sends share an id given by the caller, as the targets of a SendAll
    whose command has an id do. */
module SharedIDs {
  import opened Wrappers
  import opened PollProtocol
  import opened PollInvariant
  import opened PollTheorems

  // ---- Sends no report can reach ----

  /** A registered Send that no report can reach: nothing leads to its channel, and no delivery
      still has it in hand. */
  ghost predicate CutOff(st: State, s: nat) {
    && s < |st.sends| && Stranded(st.sends[s])
    && (forall id :: id in st.core.results ==> st.core.results[id] != s)
    && (forall d :: 0 <= d < |st.deliveries| && st.deliveries[d].channel == Some(s) ==> st.deliveries[d].done)
  }

  predicate Stranded(snd: Send) {
    && snd.buf == snd.first == snd.got == None
    && (snd.pc == Enqueueing || snd.pc == Awaiting || snd.pc == Leaving(ContextDone) || snd.pc == Returned(ContextDone))
  }

  lemma OwnStranded(st: State, a: Action)
    requires Own(a) && Enabled(st, a) && a.s < |Apply(st, a).sends| && Stranded(st.sends[a.s])
    ensures Stranded(Apply(st, a).sends[a.s]) && !a.Register?
  {
  }

  lemma OtherStranded(st: State, a: Action, s: nat)
    requires !Own(a) && Enabled(st, a) && CutOff(st, s)
    ensures s < |Apply(st, a).sends| && Stranded(Apply(st, a).sends[s])
  {
  }

  lemma ResultsStep(st: State, a: Action, s: nat)
    requires Enabled(st, a) && (a.Register? ==> a.s != s)
    requires forall id :: id in st.core.results ==> st.core.results[id] != s
    ensures forall id :: id in Apply(st, a).core.results ==> Apply(st, a).core.results[id] != s
  {
  }

  lemma DeliveriesStep(st: State, a: Action, s: nat)
    requires Enabled(st, a) && CutOff(st, s)
    ensures var t := Apply(st, a);
            forall d :: 0 <= d < |t.deliveries| && t.deliveries[d].channel == Some(s) ==> t.deliveries[d].done
  {
  }

  lemma StepCutOff(st: State, a: Action, s: nat)
    requires Enabled(st, a) && CutOff(st, s)
    ensures CutOff(Apply(st, a), s)
  {
    if Own(a) {
      OwnFrame(st, a);
      if a.s == s { OwnStranded(st, a); }
    } else {
      OtherStranded(st, a, s);
    }
    ResultsStep(st, a, s);
    DeliveriesStep(st, a, s);
  }

  /** It stays cut off in every continuation: it can only end with its context, never with a
      report. */
  lemma {:induction false} CutOffForever(st: State, acts: seq<Action>, s: nat)
    requires Legal(st, acts) && CutOff(st, s)
    ensures CutOff(Final(st, acts), s)
    decreases |acts|
  {
    if acts != [] {
      StepCutOff(st, acts[0], s);
      CutOffForever(Apply(st, acts[0]), acts[1..], s);
    }
  }

  // ---- exactly those ----

  /** In no continuation a report reaches the Send. */
  ghost predicate NeverReached(st: State, s: nat) {
    forall more | Legal(st, more) :: s < |Final(st, more).sends| && Final(st, more).sends[s].first == None
  }

  /** A delivery has found the Send's channel and not put its report yet. */
  ghost predicate OnItsWay(st: State, s: nat) {
    exists d :: 0 <= d < |st.deliveries| && st.deliveries[d].channel == Some(s) && !st.deliveries[d].done
  }

  lemma TwoSteps(st: State, a: Action, b: Action)
    requires Enabled(st, a) && Enabled(Apply(st, a), b)
    ensures Legal(st, [a, b]) && Final(st, [a, b]) == Apply(Apply(st, a), b)
  {
    assert [a, b][1..] == [b];
    OneStep(Apply(st, a), b);
  }

  lemma PutReaches(st: State, s: nat, d: nat)
    requires s < |st.sends| && Stranded(st.sends[s])
    requires d < |st.deliveries| && st.deliveries[d].channel == Some(s) && !st.deliveries[d].done
    ensures Enabled(st, Put(d)) && s < |Apply(st, Put(d)).sends| && Apply(st, Put(d)).sends[s].first.Some?
  {
  }

  lemma OnItsWayReaches(st: State, s: nat)
    requires s < |st.sends| && Stranded(st.sends[s]) && OnItsWay(st, s)
    ensures !NeverReached(st, s)
  {
    var d :| 0 <= d < |st.deliveries| && st.deliveries[d].channel == Some(s) && !st.deliveries[d].done;
    PutReaches(st, s, d);
    OneStep(st, Put(d));
  }

  lemma EntryReaches(st: State, s: nat, id: string)
    requires s < |st.sends| && Stranded(st.sends[s]) && id in st.core.results && st.core.results[id] == s
    ensures !NeverReached(st, s)
  {
    var call, d := CallDeliver(Report(id, Completed, "")), |st.deliveries|;
    PutReaches(Apply(st, call), s, d);
    TwoSteps(st, call, Put(d));
  }

  /** A Send without a report yet is never reached exactly when nothing leads to its channel
      and no delivery has it in hand. */
  lemma CutOffExact(st: State, s: nat)
    requires s < |st.sends| && Stranded(st.sends[s])
    ensures CutOff(st, s) <==> NeverReached(st, s)
  {
    if CutOff(st, s) {
      forall more | Legal(st, more)
        ensures s < |Final(st, more).sends| && Final(st, more).sends[s].first == None
      {
        CutOffForever(st, more, s);
      }
    } else if id :| id in st.core.results && st.core.results[id] == s {
      EntryReaches(st, s, id);
    } else {
      OnItsWayReaches(st, s);
    }
  }

  // ---- in every run, whatever the ids ----

  /** Whatever the ids: before it registers, a Send has seen no report and nothing leads to its
      channel; afterwards only its own id may. */
  ghost predicate NotYetOk(st: State) {
    && EntriesOk(st.core.results, st.sends)
    && DeliveriesKnown(st.deliveries, st.sends)
    && (forall i :: 0 <= i < |st.sends| && BeforeRegister(st.sends[i].pc) ==> NoReports(st.sends[i]))
  }

  predicate NoReports(snd: Send) {
    snd.buf == snd.first == snd.got == None
  }

  lemma OwnNoReports(st: State, a: Action)
    requires Own(a) && Enabled(st, a) && a.s < |Apply(st, a).sends|
    requires BeforeRegister(st.sends[a.s].pc) ==> NoReports(st.sends[a.s])
    ensures BeforeRegister(Apply(st, a).sends[a.s].pc) ==> NoReports(Apply(st, a).sends[a.s])
  {
  }

  lemma OtherNoReports(st: State, a: Action)
    requires !Own(a) && Enabled(st, a) && NotYetOk(st)
    ensures var t := Apply(st, a);
            forall i :: 0 <= i < |t.sends| && BeforeRegister(t.sends[i].pc) ==> NoReports(t.sends[i])
  {
  }

  /** Every entry of the registry leads to a Send past registering that has the entry's id. */
  ghost predicate EntriesOk(results: map<string, nat>, sends: seq<Send>) {
    forall id :: id in results ==>
      results[id] < |sends| && !BeforeRegister(sends[results[id]].pc) && sends[results[id]].cmd.id == id
  }

  lemma EntriesKept(results: map<string, nat>, less: map<string, nat>, a: seq<Send>, b: seq<Send>)
    requires EntriesOk(results, a) && AllContinue(a, b)
    requires forall id :: id in less ==> id in results && less[id] == results[id]
    ensures EntriesOk(less, b)
  {
    forall id | id in less
      ensures less[id] < |b| && !BeforeRegister(b[less[id]].pc) && b[less[id]].cmd.id == id
    {
      assert Continues(a[less[id]], b[less[id]]);
    }
  }

  lemma ResultsFrame(st: State, a: Action)
    requires Enabled(st, a) && !a.Register?
    ensures var less := Apply(st, a).core.results;
            forall id :: id in less ==> id in st.core.results && less[id] == st.core.results[id]
  {
  }

  lemma Registered(st: State, s: nat)
    requires Enabled(st, Register(s)) && EntriesOk(st.core.results, Apply(st, Register(s)).sends)
    ensures EntriesOk(Apply(st, Register(s)).core.results, Apply(st, Register(s)).sends)
  {
  }

  lemma ResultsNotYet(st: State, a: Action)
    requires Enabled(st, a) && EntriesOk(st.core.results, st.sends) && AllContinue(st.sends, Apply(st, a).sends)
    ensures EntriesOk(Apply(st, a).core.results, Apply(st, a).sends)
  {
    if a.Register? {
      EntriesKept(st.core.results, st.core.results, st.sends, Apply(st, a).sends);
      Registered(st, a.s);
    } else {
      ResultsFrame(st, a);
      EntriesKept(st.core.results, Apply(st, a).core.results, st.sends, Apply(st, a).sends);
    }
  }

  /** Every delivery that found a channel found that of a Send past registering. */
  ghost predicate DeliveriesKnown(deliveries: seq<Delivery>, sends: seq<Send>) {
    forall d :: 0 <= d < |deliveries| && deliveries[d].channel.Some? ==>
      deliveries[d].channel.value < |sends| && !BeforeRegister(sends[deliveries[d].channel.value].pc)
  }

  /** Only a new delivery brings a channel, out of the registry. */
  lemma DeliveriesFrame(st: State, a: Action)
    requires Enabled(st, a)
    ensures var t := Apply(st, a);
            && |st.deliveries| <= |t.deliveries|
            && (forall d :: 0 <= d < |st.deliveries| ==> t.deliveries[d].channel == st.deliveries[d].channel)
            && (forall d :: |st.deliveries| <= d < |t.deliveries| && t.deliveries[d].channel.Some? ==>
                  exists id :: id in st.core.results && st.core.results[id] == t.deliveries[d].channel.value)
  {
    if a.CallDeliver? && a.report.commandID in st.core.results {
      assert Apply(st, a).deliveries[|st.deliveries|].channel.value == st.core.results[a.report.commandID];
    }
  }

  lemma DeliveriesNotYet(st: State, a: Action)
    requires Enabled(st, a) && NotYetOk(st) && AllContinue(st.sends, Apply(st, a).sends)
    ensures DeliveriesKnown(Apply(st, a).deliveries, Apply(st, a).sends)
  {
    DeliveriesFrame(st, a);
  }

  lemma {:induction false} NotYetInv(st: State, acts: seq<Action>)
    requires NotYetOk(st) && Legal(st, acts)
    ensures NotYetOk(Final(st, acts))
    decreases |acts|
  {
    if acts != [] {
      var a := acts[0];
      StepContinues(st, a);
      ResultsNotYet(st, a);
      DeliveriesNotYet(st, a);
      if Own(a) {
        OwnFrame(st, a);
        OwnNoReports(st, a);
      } else {
        OtherNoReports(st, a);
      }
      NotYetInv(Apply(st, a), acts[1..]);
    }
  }

  lemma NotYetEnd(acts: seq<Action>)
    requires Legal(INITIAL, acts)
    ensures NotYetOk(Final(INITIAL, acts))
  {
    NotYetInv(INITIAL, acts);
  }

  /** A second Send with the same id registers: the first is never reached any more exactly
      when no report for it is on its way. */
  lemma SecondRegistersExact(acts: seq<Action>, a: nat, b: nat)
    requires Legal(INITIAL, acts) && a < |Final(INITIAL, acts).sends| && At(Final(INITIAL, acts), b, Connected)
    requires Stranded(Final(INITIAL, acts).sends[a])
    requires Final(INITIAL, acts).sends[a].cmd.id == Final(INITIAL, acts).sends[b].cmd.id
    ensures NeverReached(Apply(Final(INITIAL, acts), Register(b)), a) <==> !OnItsWay(Final(INITIAL, acts), a)
  {
    NotYetEnd(acts);
    var st := Final(INITIAL, acts);
    var t := Apply(st, Register(b));
    CutOffExact(t, a);
    SecondRegistered(st, a, b);
  }

  lemma SecondRegistered(st: State, a: nat, b: nat)
    requires NotYetOk(st) && At(st, b, Connected) && a < |st.sends| && Stranded(st.sends[a])
    requires st.sends[a].cmd.id == st.sends[b].cmd.id
    ensures a < |Apply(st, Register(b)).sends| && Stranded(Apply(st, Register(b)).sends[a])
    ensures CutOff(Apply(st, Register(b)), a) <==> !OnItsWay(st, a)
  {
    assert Apply(st, Register(b)).deliveries == st.deliveries;
  }

  /** The first Send ends: its removal takes the second one's entry away, so that the second
      is never reached any more exactly when no report for it is on its way. */
  lemma FirstUnregistersExact(acts: seq<Action>, a: nat, b: nat)
    requires Legal(INITIAL, acts) && a < |Final(INITIAL, acts).sends| && b < |Final(INITIAL, acts).sends|
    requires Final(INITIAL, acts).sends[a].pc.Leaving? && a != b && Stranded(Final(INITIAL, acts).sends[b])
    requires Final(INITIAL, acts).sends[a].cmd.id == Final(INITIAL, acts).sends[b].cmd.id
    ensures NeverReached(Apply(Final(INITIAL, acts), Unregister(a)), b) <==> !OnItsWay(Final(INITIAL, acts), b)
  {
    NotYetEnd(acts);
    var st := Final(INITIAL, acts);
    CutOffExact(Apply(st, Unregister(a)), b);
    FirstUnregistered(st, a, b);
  }

  lemma FirstUnregistered(st: State, a: nat, b: nat)
    requires NotYetOk(st) && a < |st.sends| && b < |st.sends| && a != b
    requires st.sends[a].pc.Leaving? && Stranded(st.sends[b]) && st.sends[a].cmd.id == st.sends[b].cmd.id
    ensures b < |Apply(st, Unregister(a)).sends| && Stranded(Apply(st, Unregister(a)).sends[b])
    ensures CutOff(Apply(st, Unregister(a)), b) <==> !OnItsWay(st, b)
  {
    assert Apply(st, Unregister(a)).deliveries == st.deliveries;
  }

  // ---- runs in which both happen ----

  /** A SendAll to `x` and `y` with the id `id`, up to the second registration; only what its
      steps change is a parameter. */
  function Pair(x: string, y: string, id: string, px: SendPc, py: SendPc, results: map<string, nat>,
                healthy: map<string, bool>, polls: seq<Poll>, closes: map<string, nat>): State
  {
    var cmd := Command(id, "run");
    State(Core(map[], results, healthy, 0),
          [Send(x, cmd, 0, px, false, false, None, None, None, Some(0)),
           Send(y, cmd, 0, py, false, false, None, None, None, Some(0))],
          [], polls, [Group(0, 2, {}, None)], map[], map[], closes)
  }

  /** The steps, one after the other. */
  function Act(k: nat, x: string, y: string, id: string): Action {
    match k
    case 0 => CallSendAll([x, y], id, "run")
    case 1 => PickID(0)
    case 2 => PickID(1)
    case 3 => EnterWait(0)
    case 4 => EnterWait(1)
    case 5 => CallPoll(x)
    case 6 => CallPoll(y)
    case 7 => AgentSeen(0)
    case 8 => AgentSeen(1)
    case 9 => Register(0)
    case 10 => Enqueue(0)
    case 11 => PollTake(0)
    case 12 => CallDeliver(Report(id, Completed, ""))
    case 13 => Put(0)
    case 14 => Receive(0)
    case 15 => Register(1)
    case _ => Unregister(0)
  }

  /** The state after the first `k` steps, while both agents connect. */
  function Stage(k: nat, x: string, y: string, id: string): State {
    var waiting, seen := map[x := false, y := false], map[x := true, y := true];
    var polls, closes := [Poll(x, Polling), Poll(y, Polling)], map[x := 1, y := 1];
    match k
    case 0 => INITIAL
    case 1 => Pair(x, y, id, New, New, map[], map[], [], map[])
    case 2 => Pair(x, y, id, Named, New, map[], map[], [], map[])
    case 3 => Pair(x, y, id, Named, Named, map[], map[], [], map[])
    case 4 => Pair(x, y, id, WaitingAgent, Named, map[], map[x := false], [], map[])
    case 5 => Pair(x, y, id, WaitingAgent, WaitingAgent, map[], waiting, [], map[])
    case 6 => Pair(x, y, id, WaitingAgent, WaitingAgent, map[], waiting[x := true], polls[..1], map[x := 1])
    case 7 => Pair(x, y, id, WaitingAgent, WaitingAgent, map[], seen, polls, closes)
    case 8 => Pair(x, y, id, Connected, WaitingAgent, map[], seen, polls, closes)
    case 9 => Pair(x, y, id, Connected, Connected, map[], seen, polls, closes)
    case 10 => Pair(x, y, id, Enqueueing, Connected, map[id := 0], seen, polls, closes)
    case _ => Later(k, x, y, id)
  }

  /** The state after `k` steps, from the first agent's command on. */
  function Later(k: nat, x: string, y: string, id: string): State {
    var cmd, report := Command(id, "run"), Report(id, Completed, "");
    var first := Send(x, cmd, 0, Awaiting, false, true, None, None, None, Some(0));
    var second := Send(y, cmd, 0, Connected, false, false, None, None, None, Some(0));
    var core := Core(map[x := []], map[id := 0], map[x := true, y := true], 0);
    var polls, closes := [Poll(x, PollGot(cmd, 0)), Poll(y, Polling)], map[x := 1, y := 1];
    var sent := map[x := [cmd]];
    var reported := first.(pc := Leaving(Nil), first := Some(report), got := Some(report));
    var delivery := Delivery(report, Some(0), true);
    match k
    case 11 =>
      State(core.(queues := sent), [first, second], [], polls[0 := Poll(x, Polling)], [Group(0, 2, {}, None)],
            sent, map[], closes)
    case 12 => State(core, [first, second], [], polls, [Group(0, 2, {}, None)], sent, sent, closes)
    case 13 =>
      State(core, [first, second], [delivery.(done := false)], polls, [Group(0, 2, {}, None)], sent, sent, closes)
    case 14 =>
      State(core, [first.(buf := Some(report), first := Some(report)), second], [delivery], polls,
            [Group(0, 2, {}, None)], sent, sent, closes)
    case 15 => State(core, [reported, second], [delivery], polls, [Group(0, 2, {}, None)], sent, sent, closes)
    case 16 =>
      State(core.(results := map[id := 1]), [reported, second.(pc := Enqueueing)], [delivery], polls,
            [Group(0, 2, {}, None)], sent, sent, closes)
    case _ =>
      State(core.(results := map[]), [reported.(pc := Returned(Nil)), second.(pc := Enqueueing)], [delivery], polls,
            [Group(0, 2, {}, None)], sent, sent, closes)
  }

  ghost predicate Leads(k: nat, x: string, y: string, id: string) {
    Enabled(Stage(k, x, y, id), Act(k, x, y, id))
    && Apply(Stage(k, x, y, id), Act(k, x, y, id)) == Stage(k + 1, x, y, id)
  }

  lemma Naming(k: nat, x: string, y: string, id: string)
    requires id != "" && x != y && k <= 2
    ensures Leads(k, x, y, id)
  {
  }

  lemma Waiting(k: nat, x: string, y: string, id: string)
    requires id != "" && x != y && 3 <= k <= 4
    ensures Leads(k, x, y, id)
  {
  }

  lemma Polled(k: nat, x: string, y: string, id: string)
    requires id != "" && x != y && 5 <= k <= 6
    ensures Leads(k, x, y, id)
  {
  }

  lemma Connecting(k: nat, x: string, y: string, id: string)
    requires id != "" && x != y && 7 <= k <= 8
    ensures Leads(k, x, y, id)
  {
  }

  lemma Sending(x: string, y: string, id: string)
    requires id != "" && x != y
    ensures Leads(9, x, y, id) && Leads(10, x, y, id)
  {
    var cmd, none := Command(id, "run"), map[];
    assert Lookup(none, x) + [cmd] == [cmd];
    assert none[x := [cmd]] == map[x := [cmd]];
  }

  lemma Taking(x: string, y: string, id: string)
    requires id != "" && x != y
    ensures Leads(11, x, y, id)
  {
    var cmd := Command(id, "run");
    assert [cmd][1..] == [] && Lookup(map[], x) + [cmd] == [cmd];
    assert map[x := [cmd]][x := []] == map[x := []];
  }

  lemma Reporting(k: nat, x: string, y: string, id: string)
    requires id != "" && x != y && 12 <= k <= 14
    ensures Leads(k, x, y, id)
  {
  }

  lemma Ending(k: nat, x: string, y: string, id: string)
    requires id != "" && x != y && 15 <= k <= 16
    ensures Leads(k, x, y, id)
  {
  }

  lemma StageLeads(k: nat, x: string, y: string, id: string)
    requires id != "" && x != y && k <= 16
    ensures Leads(k, x, y, id)
  {
    if k <= 2 {
      Naming(k, x, y, id);
    } else if k <= 4 {
      Waiting(k, x, y, id);
    } else if k <= 6 {
      Polled(k, x, y, id);
    } else if k <= 8 {
      Connecting(k, x, y, id);
    } else if k <= 10 {
      Sending(x, y, id);
    } else if k == 11 {
      Taking(x, y, id);
    } else if k <= 14 {
      Reporting(k, x, y, id);
    } else {
      Ending(k, x, y, id);
    }
  }

  function Acts(k: nat, x: string, y: string, id: string): seq<Action> {
    if k == 0 then [] else Acts(k - 1, x, y, id) + [Act(k - 1, x, y, id)]
  }

  lemma {:induction false} StageReached(k: nat, x: string, y: string, id: string)
    requires id != "" && x != y && k <= 17
    ensures Legal(INITIAL, Acts(k, x, y, id)) && Final(INITIAL, Acts(k, x, y, id)) == Stage(k, x, y, id)
  {
    if k > 0 {
      StageReached(k - 1, x, y, id);
      StageLeads(k - 1, x, y, id);
      Appended(INITIAL, Acts(k - 1, x, y, id), Act(k - 1, x, y, id));
    }
  }

  lemma SecondRegistersNow(x: string, y: string, id: string)
    requires id != "" && x != y
    ensures Legal(INITIAL, Acts(10, x, y, id) + [Register(1)])
    ensures CutOff(Final(INITIAL, Acts(10, x, y, id) + [Register(1)]), 0)
  {
    StageReached(10, x, y, id);
    Appended(INITIAL, Acts(10, x, y, id), Register(1));
  }

  lemma SecondIsCutOff(x: string, y: string, id: string)
    ensures CutOff(Stage(17, x, y, id), 1)
  {
  }

  /** A SendAll to two agents with an id given by the caller. Both agents poll and the first
      Send registers. If the second registers as well, whatever the first agent reports, its
      Send is never reached. If it registers only when the first has its report and is about
      to unregister, the first Send returns nil and the second is never reached. */
  lemma SharedIDRun(x: string, y: string, id: string)
    requires id != "" && x != y
    ensures Legal(INITIAL, Acts(10, x, y, id) + [Register(1)])
    ensures NeverReached(Final(INITIAL, Acts(10, x, y, id) + [Register(1)]), 0)
    ensures Legal(INITIAL, Acts(17, x, y, id)) && At(Final(INITIAL, Acts(17, x, y, id)), 0, Returned(Nil))
    ensures NeverReached(Final(INITIAL, Acts(17, x, y, id)), 1)
  {
    SecondRegistersNow(x, y, id);
    CutOffExact(Final(INITIAL, Acts(10, x, y, id) + [Register(1)]), 0);
    StageReached(17, x, y, id);
    SecondIsCutOff(x, y, id);
    CutOffExact(Stage(17, x, y, id), 1);
  }
}
