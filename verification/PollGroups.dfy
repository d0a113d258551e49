/** What one Send of a SendAll means for the others: when their contexts end, and which error
    is kept. */
module PollGroups {
  import opened Wrappers
  import opened PollProtocol
  import opened PollInvariant
  import opened PollTheorems
  import opened PollProgress

  /** No step of the run ends the context of one of these Sends from outside. */
  ghost predicate LeftAlone(acts: seq<Action>, lo: nat, hi: nat) {
    forall k :: 0 <= k < |acts| && acts[k].CancelContext? ==> !(lo <= acts[k].s < hi)
  }

  /** Without an error yet the contexts go on. */
  ghost predicate GoesOn(st: State, g: nat) {
    g < |st.groups| && st.groups[g].firstErr.None? ==>
      forall i :: st.groups[g].lo <= i < st.groups[g].hi ==> i < |st.sends| && !st.sends[i].ctxDone
  }

  lemma OwnContexts(st: State, a: Action)
    requires Own(a) && Enabled(st, a)
    ensures a.s < |Apply(st, a).sends| && Apply(st, a).sends[a.s].ctxDone == st.sends[a.s].ctxDone
    ensures Apply(st, a).groups == st.groups
  {
  }

  lemma CollectGoesOn(st: State, s: nat, g: nat)
    requires Enabled(st, Collect(s)) && GroupsOk(st) && GoesOn(st, g)
    ensures GoesOn(Apply(st, Collect(s)), g)
  {
    var own := st.sends[s].group.value;
    assert GroupOk(st.sends, own, st.groups[own]);
    if g < |st.groups| { assert GroupOk(st.sends, g, st.groups[g]); }
  }

  lemma CancelGoesOn(st: State, s: nat, g: nat)
    requires Enabled(st, CancelContext(s)) && GroupsOk(st) && GoesOn(st, g)
    requires g < |st.groups| ==> !(st.groups[g].lo <= s < st.groups[g].hi)
    ensures GoesOn(Apply(st, CancelContext(s)), g)
  {
    if g < |st.groups| { assert GroupOk(st.sends, g, st.groups[g]); }
    if st.sends[s].group.Some? {
      var own := st.sends[s].group.value;
      assert GroupOk(st.sends, own, st.groups[own]);
    }
  }

  lemma OtherGoesOn(st: State, a: Action, g: nat)
    requires Enabled(st, a) && !Own(a) && !a.Collect? && !a.CancelContext? && GoesOn(st, g) && GroupsOk(st)
    ensures GoesOn(Apply(st, a), g)
  {
  }

  lemma StepGoesOn(st: State, a: Action, g: nat)
    requires Enabled(st, a) && GroupsOk(st) && GoesOn(st, g)
    requires a.CancelContext? && g < |st.groups| ==> !(st.groups[g].lo <= a.s < st.groups[g].hi)
    ensures GoesOn(Apply(st, a), g)
  {
    if Own(a) {
      OwnFrame(st, a);
      OwnContexts(st, a);
    } else if a.Collect? {
      CollectGoesOn(st, a.s, g);
    } else if a.CancelContext? {
      CancelGoesOn(st, a.s, g);
    } else {
      OtherGoesOn(st, a, g);
    }
  }

  lemma {:induction false} RunGoesOn(st: State, acts: seq<Action>, g: nat)
    requires Legal(st, acts) && AnyInv(st) && GoesOn(st, g) && g < |Final(st, acts).groups|
    requires LeftAlone(acts, Final(st, acts).groups[g].lo, Final(st, acts).groups[g].hi)
    ensures GoesOn(Final(st, acts), g)
    ensures g < |st.groups| ==> Final(st, acts).groups[g].lo == st.groups[g].lo
                                && Final(st, acts).groups[g].hi == st.groups[g].hi
    decreases |acts|
  {
    if acts != [] {
      RunMembersKept(st, acts);
      StepAny(st, acts[0]);
      StepGoesOn(st, acts[0], g);
      assert forall k :: 0 <= k < |acts[1..]| ==> acts[1..][k] == acts[k + 1];
      RunGoesOn(Apply(st, acts[0]), acts[1..], g);
    }
  }

  lemma {:induction false} RunMembersKept(st: State, acts: seq<Action>)
    requires Legal(st, acts)
    ensures SameMembers(st.groups, Final(st, acts).groups)
    decreases |acts|
  {
    if acts != [] {
      StepMembersKept(st, acts[0]);
      RunMembersKept(Apply(st, acts[0]), acts[1..]);
    }
  }

  /** Left alone from outside, the contexts of a SendAll's Sends end exactly with its first error. */
  lemma ContextsExact(acts: seq<Action>, g: nat, i: nat)
    requires Legal(INITIAL, acts) && g < |Final(INITIAL, acts).groups|
    requires var group := Final(INITIAL, acts).groups[g];
             LeftAlone(acts, group.lo, group.hi) && group.lo <= i < group.hi
    ensures var st := Final(INITIAL, acts);
            i < |st.sends| && (st.sends[i].ctxDone <==> st.groups[g].firstErr.Some?)
  {
    AnyInitial();
    GoesOnInitial(g);
    RunGoesOn(INITIAL, acts, g);
    GroupsAtEnd(acts, g);
    if Final(INITIAL, acts).groups[g].firstErr.Some? { FirstErrorFrees(acts, g, i); }
  }

  lemma AnyInitial()
    ensures AnyInv(INITIAL)
  {
    InitialInv();
  }

  lemma GoesOnInitial(g: nat)
    ensures GoesOn(INITIAL, g)
  {
  }

  lemma GroupsAtEnd(acts: seq<Action>, g: nat)
    requires Legal(INITIAL, acts) && g < |Final(INITIAL, acts).groups|
    ensures Final(INITIAL, acts).groups[g].hi <= |Final(INITIAL, acts).sends|
  {
    AnyEndInv(acts);
    assert GroupOk(Final(INITIAL, acts).sends, g, Final(INITIAL, acts).groups[g]);
  }

  /** The error collected by a step, if it is one of that SendAll. */
  function ErrorOf(st: State, a: Action, g: nat): Option<Outcome> {
    if a.Collect? && a.s < |st.sends| && st.sends[a.s].group == Some(g)
       && st.sends[a.s].pc.Returned? && st.sends[a.s].pc.outcome != Nil
    then Some(st.sends[a.s].pc.outcome)
    else None
  }

  /** The first error that the first `n` steps collected. */
  function FirstOf(acts: seq<Action>, states: seq<State>, g: nat, n: nat): Option<Outcome>
    requires n <= |acts| < |states|
  {
    if n == 0 then None
    else
      var before := FirstOf(acts, states, g, n - 1);
      if before.Some? then before else ErrorOf(states[n - 1], acts[n - 1], g)
  }

  lemma ErrorStep(st: State, a: Action, g: nat)
    requires Enabled(st, a) && g < |Apply(st, a).groups|
    ensures Apply(st, a).groups[g].firstErr ==
              if g < |st.groups| && st.groups[g].firstErr.Some? then st.groups[g].firstErr
              else if g < |st.groups| then ErrorOf(st, a, g) else None
  {
    if Own(a) { OwnGroups(st, a); }
  }

  lemma {:induction false} StatesInv(acts: seq<Action>, states: seq<State>, n: nat)
    requires StatesOf(acts, states) && n <= |acts|
    ensures AnyInv(states[n])
  {
    if n == 0 {
      AnyInitial();
    } else {
      StatesInv(acts, states, n - 1);
      assert Leads(states[n - 1], acts[n - 1], states[n]);
      StepAny(states[n - 1], acts[n - 1]);
    }
  }

  lemma MembersIn(st: State)
    requires AnyInv(st)
    ensures MembersOk(st)
  {
  }

  /** A SendAll that has not begun collects nothing. */
  lemma NoErrorYet(acts: seq<Action>, states: seq<State>, g: nat, k: nat)
    requires StatesOf(acts, states) && k < |acts| && g >= |states[k].groups|
    ensures ErrorOf(states[k], acts[k], g) == None
  {
    StatesInv(acts, states, k);
    MembersIn(states[k]);
  }

  lemma ErrorAfter(acts: seq<Action>, states: seq<State>, g: nat, k: nat)
    requires StatesOf(acts, states) && k < |acts|
    ensures KeptError(states[k + 1], g) ==
              if KeptError(states[k], g).Some? then KeptError(states[k], g) else ErrorOf(states[k], acts[k], g)
  {
    assert Leads(states[k], acts[k], states[k + 1]);
    StepMembersKept(states[k], acts[k]);
    if g < |states[k + 1].groups| { ErrorStep(states[k], acts[k], g); }
    if g >= |states[k].groups| { NoErrorYet(acts, states, g, k); }
  }

  function KeptError(st: State, g: nat): Option<Outcome> {
    if g < |st.groups| then st.groups[g].firstErr else None
  }

  ghost predicate ErrorsAlong(acts: seq<Action>, states: seq<State>, g: nat) {
    && |states| == |acts| + 1 && KeptError(states[0], g) == None
    && forall k :: 0 <= k < |acts| ==>
         KeptError(states[k + 1], g) ==
           if KeptError(states[k], g).Some? then KeptError(states[k], g) else ErrorOf(states[k], acts[k], g)
  }

  lemma StatesErrors(acts: seq<Action>, states: seq<State>, g: nat)
    requires StatesOf(acts, states)
    ensures ErrorsAlong(acts, states, g)
  {
    NoErrorAtStart(acts, states, g);
    forall k | 0 <= k < |acts|
      ensures KeptError(states[k + 1], g) ==
                if KeptError(states[k], g).Some? then KeptError(states[k], g) else ErrorOf(states[k], acts[k], g)
    {
      ErrorAfter(acts, states, g, k);
    }
  }

  lemma {:induction false} ErrorAt(acts: seq<Action>, states: seq<State>, g: nat, n: nat)
    requires ErrorsAlong(acts, states, g) && n <= |acts|
    ensures KeptError(states[n], g) == FirstOf(acts, states, g, n)
  {
    if n > 0 { ErrorAt(acts, states, g, n - 1); }
  }

  /** SendAll keeps the error it collects first, and no other. */
  lemma FirstErrorExact(acts: seq<Action>, states: seq<State>, g: nat, n: nat)
    requires StatesOf(acts, states) && n <= |acts|
    ensures KeptError(states[n], g) == FirstOf(acts, states, g, n)
  {
    StatesErrors(acts, states, g);
    ErrorAt(acts, states, g, n);
  }

  lemma NoErrorAtStart(acts: seq<Action>, states: seq<State>, g: nat)
    requires StatesOf(acts, states)
    ensures KeptError(states[0], g) == None
  {
  }
}
