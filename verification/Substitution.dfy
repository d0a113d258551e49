/** Replacing numbered keys in a text: one key after the other, and all in one pass. */
module Substitution {

  predicate StartsWith(s: string, p: string) {
    |p| <= |s| && s[..|p|] == p
  }

  // ---- strings.ReplaceAll ----

  /** Leftmost occurrences, none overlapping. */
  function ReplaceAll(s: string, p: string, h: string): string
    requires p != []
  {
    if s == [] then []
    else if StartsWith(s, p) then h + ReplaceAll(s[|p|..], p, h)
    else [s[0]] + ReplaceAll(s[1..], p, h)
  }

  ghost predicate OccursAt(s: string, p: string, i: nat) {
    i + |p| <= |s| && s[i..i + |p|] == p
  }

  ghost predicate Occurs(s: string, p: string) {
    exists i: nat :: OccursAt(s, p, i)
  }

  lemma OccursLater(s: string, p: string)
    requires s != [] && Occurs(s[1..], p)
    ensures Occurs(s, p)
  {
    var i: nat :| OccursAt(s[1..], p, i);
    assert s[1..][i..i + |p|] == s[i + 1..i + 1 + |p|];
    assert OccursAt(s, p, i + 1);
  }

  lemma {:induction false} ReplaceNone(s: string, p: string, h: string)
    requires p != [] && !Occurs(s, p)
    ensures ReplaceAll(s, p, h) == s
  {
    if s != [] {
      assert !OccursAt(s, p, 0);
      if Occurs(s[1..], p) { OccursLater(s, p); }
      ReplaceNone(s[1..], p, h);
    }
  }

  lemma ReplaceWhole(p: string, h: string)
    requires p != []
    ensures ReplaceAll(p, p, h) == h
  {
    assert p[..|p|] == p && p[|p|..] == [];
    assert h + [] == h;
  }

  lemma OccursInSuffix(s: string, p: string, d: nat, o: nat)
    requires d <= |s| && OccursAt(s[d..], p, o)
    ensures OccursAt(s, p, d + o)
  {
    assert s[d..][o..o + |p|] == s[d + o..d + o + |p|];
  }

  lemma ReplaceLater(c: char, rest: string, p: string, h: string)
    requires p != [] && !StartsWith([c] + rest, p)
    ensures ReplaceAll([c] + rest, p, h) == [c] + ReplaceAll(rest, p, h)
  {
    assert ([c] + rest)[1..] == rest;
  }

  /** The first occurrence is replaced where it stands. */
  lemma ReplaceFirst(a: string, p: string, b: string, h: string)
    requires p != [] && forall i: nat :: i < |a| ==> !OccursAt(a + p + b, p, i)
    ensures ReplaceAll(a + p + b, p, h) == a + h + ReplaceAll(b, p, h)
  {
    assert a + p + b == a + (p + b);
    ReplaceSkip(a, p + b, p, h);
    ReplaceAtStart(p, b, h);
    assert a + (h + ReplaceAll(b, p, h)) == a + h + ReplaceAll(b, p, h);
  }

  lemma StartsSplit(a: string, c: char, b: string, p: string)
    requires c !in p
    ensures StartsWith(a + [c] + b, p) <==> StartsWith(a, p)
    ensures StartsWith(a, p) ==> (a + [c] + b)[|p|..] == a[|p|..] + [c] + b
  {
    var s := a + [c] + b;
    if |p| <= |a| {
      assert s[..|p|] == a[..|p|];
    } else if |p| <= |s| {
      assert s[..|p|][|a|] == c;
    }
  }

  /** A character the pattern lacks cuts the text into parts that are replaced separately. */
  lemma {:induction false} ReplaceSplit(a: string, c: char, b: string, p: string, h: string)
    requires p != [] && c !in p
    ensures ReplaceAll(a + [c] + b, p, h) == ReplaceAll(a, p, h) + [c] + ReplaceAll(b, p, h)
    decreases |a|
  {
    var s := a + [c] + b;
    StartsSplit(a, c, b, p);
    if StartsWith(a, p) {
      ReplaceSplit(a[|p|..], c, b, p, h);
    } else if a == [] {
      assert s[1..] == b;
    } else {
      assert s[1..] == a[1..] + [c] + b;
      ReplaceSplit(a[1..], c, b, p, h);
    }
  }

  lemma CharacterInside(s: string, p: string, i: nat, m: nat)
    requires OccursAt(s, p, i) && i <= m < i + |p|
    ensures s[m] in p
  {
    assert s[i..i + |p|][m - i] == s[m];
  }

  lemma OccursSuffix(a: string, b: string, p: string, i: nat)
    requires OccursAt(b, p, i)
    ensures OccursAt(a + b, p, |a| + i)
  {
    forall m | 0 <= m < |p|
      ensures (a + b)[|a| + i + m] == p[m]
    {
      assert b[i..i + |p|][m] == b[i + m];
    }
  }

  lemma OccursSplit(a: string, c: char, b: string, p: string)
    requires c !in p
    ensures Occurs(a + [c] + b, p) <==> Occurs(a, p) || Occurs(b, p)
  {
    var s := a + [c] + b;
    if i: nat :| OccursAt(a, p, i) {
      assert s[i..i + |p|] == a[i..i + |p|];
      assert OccursAt(s, p, i);
    }
    if i: nat :| OccursAt(b, p, i) {
      OccursSuffix(a + [c], b, p, i);
    }
    if i: nat :| OccursAt(s, p, i) {
      if i + |p| <= |a| {
        assert s[i..i + |p|] == a[i..i + |p|];
        assert OccursAt(a, p, i);
      } else if i > |a| {
        var k := i - |a| - 1;
        assert s[i..i + |p|] == b[k..k + |p|];
        assert OccursAt(b, p, k);
      } else {
        CharacterInside(s, p, i, |a|);
      }
    }
  }

  /** The keys to be replaced, numbered from 0: none is empty and none is part of another. */
  ghost predicate Keys(key: nat -> string) {
    && (forall i: nat :: key(i) != [])
    && (forall i: nat, k: nat :: Occurs(key(i), key(k)) ==> i == k)
  }

  ghost predicate Delimits(key: nat -> string, c: char) {
    forall j: nat :: c !in key(j)
  }

  /** Two keys at the same place are the same. */
  lemma SamePlace(key: nat -> string, s: string, i: nat, j: nat)
    requires Keys(key) && StartsWith(s, key(i)) && StartsWith(s, key(j))
    ensures i == j
  {
    if |key(i)| <= |key(j)| {
      assert key(j)[..|key(i)|] == s[..|key(i)|];
      assert OccursAt(key(j), key(i), 0);
    } else {
      assert key(i)[..|key(j)|] == s[..|key(j)|];
      assert OccursAt(key(i), key(j), 0);
    }
  }

  ghost predicate HoldsNone(key: nat -> string, s: string) {
    forall k: nat :: !Occurs(s, key(k))
  }

  // ---- the two substitutions ----

  /** What is left to do from host `k` on, one ReplaceAll after the other. */
  function SubstituteFrom(key: nat -> string, s: string, hosts: seq<string>, k: nat): string
    requires Keys(key) && k <= |hosts|
    decreases |hosts| - k
  {
    if k == |hosts| then s else SubstituteFrom(key, ReplaceAll(s, key(k), hosts[k]), hosts, k + 1)
  }

  ghost predicate HostAtStart(key: nat -> string, s: string, hosts: seq<string>, j: nat) {
    j < |hosts| && StartsWith(s, key(j))
  }

  /** The reference: one pass from the left, every placeholder of a host replaced where it
      stands, and nothing put in is looked at again. */
  ghost function Simultaneous(key: nat -> string, s: string, hosts: seq<string>): string
    requires Keys(key)
  {
    if s == [] then []
    else if exists j: nat :: HostAtStart(key, s, hosts, j) then
      var j: nat :| HostAtStart(key, s, hosts, j);
      hosts[j] + Simultaneous(key, s[|key(j)|..], hosts)
    else [s[0]] + Simultaneous(key, s[1..], hosts)
  }

  lemma AtStart(key: nat -> string, s: string, j: nat, hosts: seq<string>)
    requires Keys(key) && HostAtStart(key, s, hosts, j)
    ensures Simultaneous(key, s, hosts) == hosts[j] + Simultaneous(key, s[|key(j)|..], hosts)
  {
    var i: nat :| HostAtStart(key, s, hosts, i)
        && Simultaneous(key, s, hosts) == hosts[i] + Simultaneous(key, s[|key(i)|..], hosts);
    assert HostAtStart(key, s, hosts, i);
    assert StartsWith(s, key(j));
    assert StartsWith(s, key(i));
    SamePlace(key, s, i, j);
  }

  lemma SplitAtStart(key: nat -> string, j: nat, a: string, c: char, b: string, hosts: seq<string>)
    requires Keys(key) && HostAtStart(key, a, hosts, j) && Delimits(key, c)
    ensures Simultaneous(key, a, hosts) == hosts[j] + Simultaneous(key, a[|key(j)|..], hosts)
    ensures Simultaneous(key, a + [c] + b, hosts) == hosts[j] + Simultaneous(key, a[|key(j)|..] + [c] + b, hosts)
  {
    StartsSplit(a, c, b, key(j));
    AtStart(key, a, j, hosts);
    AtStart(key, a + [c] + b, j, hosts);
  }

  lemma NoKeyHere(key: nat -> string, s: string, hosts: seq<string>)
    requires Keys(key) && s != [] && forall j: nat :: !HostAtStart(key, s, hosts, j)
    ensures Simultaneous(key, s, hosts) == [s[0]] + Simultaneous(key, s[1..], hosts)
  {
  }

  /** Both texts go on without a key. */
  lemma SplitOneOn(key: nat -> string, a: string, c: char, b: string, hosts: seq<string>)
    requires Keys(key) && Delimits(key, c) && forall j: nat :: !HostAtStart(key, a, hosts, j)
    ensures var s := a + [c] + b;
            Simultaneous(key, s, hosts) == [s[0]] + Simultaneous(key, s[1..], hosts)
    ensures a != [] ==> Simultaneous(key, a, hosts) == [a[0]] + Simultaneous(key, a[1..], hosts)
  {
    var s := a + [c] + b;
    forall j: nat
      ensures !HostAtStart(key, s, hosts, j)
    {
      StartsSplit(a, c, b, key(j));
      assert !HostAtStart(key, a, hosts, j);
    }
    NoKeyHere(key, s, hosts);
    if a != [] { NoKeyHere(key, a, hosts); }
  }

  lemma {:induction false} SimultaneousSplit(key: nat -> string, a: string, c: char, b: string, hosts: seq<string>)
    requires Keys(key)
    requires Delimits(key, c)
    ensures Simultaneous(key, a + [c] + b, hosts) == Simultaneous(key, a, hosts) + [c] + Simultaneous(key, b, hosts)
    decreases |a|
  {
    var s := a + [c] + b;
    if j: nat :| HostAtStart(key, a, hosts, j) {
      SplitAtStart(key, j, a, c, b, hosts);
      SimultaneousSplit(key, a[|key(j)|..], c, b, hosts);
    } else {
      SplitOneOn(key, a, c, b, hosts);
      if a == [] {
        assert s[1..] == b;
      } else {
        assert s[1..] == a[1..] + [c] + b;
        SimultaneousSplit(key, a[1..], c, b, hosts);
      }
    }
  }

  lemma {:induction false} SimultaneousNone(key: nat -> string, s: string, hosts: seq<string>)
    requires Keys(key)
    requires forall k: nat :: k < |hosts| ==> !Occurs(s, key(k))
    ensures Simultaneous(key, s, hosts) == s
  {
    if s != [] {
      forall j: nat
        ensures !HostAtStart(key, s, hosts, j)
      {
        if HostAtStart(key, s, hosts, j) {
          assert OccursAt(s, key(j), 0);
        }
      }
      forall k: nat | k < |hosts|
        ensures !Occurs(s[1..], key(k))
      {
        if Occurs(s[1..], key(k)) { OccursLater(s, key(k)); }
      }
      SimultaneousNone(key, s[1..], hosts);
    }
  }

  // ---- bodies in which every placeholder stands by itself ----

  datatype Field = Slot(i: nat) | Text(text: string)

  /** Fields with single characters between them. */
  datatype Template = Last(field: Field) | More(field: Field, delimiter: char, rest: Template)

  function FieldText(key: nat -> string, f: Field): string {
    match f
    case Slot(i) => key(i)
    case Text(t) => t
  }

  function Body(key: nat -> string, t: Template): string {
    match t
    case Last(f) => FieldText(key, f)
    case More(f, c, rest) => FieldText(key, f) + [c] + Body(key, rest)
  }

  /** The characters between fields occur in no placeholder. */
  ghost predicate Delimited(key: nat -> string, t: Template) {
    t.More? ==> Delimits(key, t.delimiter) && Delimited(key, t.rest)
  }

  /** The text fields hold no placeholder. */
  ghost predicate Plain(key: nat -> string, t: Template) {
    && (t.field.Text? ==> HoldsNone(key, t.field.text))
    && (t.More? ==> Plain(key, t.rest))
  }

  function Slots(t: Template): set<nat> {
    (if t.field.Slot? then {t.field.i} else {}) + if t.More? then Slots(t.rest) else {}
  }

  /** Slot `i` reads host `i`, if there is one. */
  function FilledField(f: Field, hosts: seq<string>): Field {
    if f.Slot? && f.i < |hosts| then Text(hosts[f.i]) else f
  }

  function Filled(t: Template, hosts: seq<string>): Template {
    match t
    case Last(f) => Last(FilledField(f, hosts))
    case More(f, c, rest) => More(FilledField(f, hosts), c, Filled(rest, hosts))
  }

  ghost predicate OccursIn(key: nat -> string, t: Template, p: string) {
    Occurs(FieldText(key, t.field), p) || (t.More? && OccursIn(key, t.rest, p))
  }

  lemma {:induction false} OccursInBody(key: nat -> string, t: Template, j: nat)
    requires Delimited(key, t)
    ensures Occurs(Body(key, t), key(j)) <==> OccursIn(key, t, key(j))
  {
    if t.More? {
      OccursInBody(key, t.rest, j);
      OccursSplit(FieldText(key, t.field), t.delimiter, Body(key, t.rest), key(j));
    }
  }

  /** The reference pass puts host `i` at slot `i` and changes nothing else. */
  lemma {:induction false} SimultaneousFills(key: nat -> string, t: Template, hosts: seq<string>)
    requires Keys(key)
    requires Delimited(key, t) && Plain(key, t)
    ensures Simultaneous(key, Body(key, t), hosts) == Body(key, Filled(t, hosts))
  {
    SimultaneousField(key, t.field, hosts);
    if t.More? {
      SimultaneousSplit(key, FieldText(key, t.field), t.delimiter, Body(key, t.rest), hosts);
      SimultaneousFills(key, t.rest, hosts);
    }
  }

  lemma SimultaneousField(key: nat -> string, f: Field, hosts: seq<string>)
    requires Keys(key)
    requires f.Text? ==> HoldsNone(key, f.text)
    ensures Simultaneous(key, FieldText(key, f), hosts) == FieldText(key, FilledField(f, hosts))
  {
    if f.Slot? && f.i < |hosts| {
      AtStart(key, key(f.i), f.i, hosts);
      assert key(f.i)[|key(f.i)|..] == [];
      assert hosts[f.i] + [] == hosts[f.i];
    } else {
      forall k: nat | k < |hosts|
        ensures !Occurs(FieldText(key, f), key(k))
      {
      }
      SimultaneousNone(key, FieldText(key, f), hosts);
    }
  }

  // ---- the sequential loop on such bodies ----

  /** What the loop makes of a template: each field on its own. */
  function Settled(key: nat -> string, t: Template, hosts: seq<string>): Template
    requires Keys(key)
  {
    var f := Text(SubstituteFrom(key, FieldText(key, t.field), hosts, 0));
    match t
    case Last(_) => Last(f)
    case More(_, c, rest) => More(f, c, Settled(key, rest, hosts))
  }

  lemma {:induction false} SubstituteSplit(
    key: nat -> string, a: string, c: char, b: string, hosts: seq<string>, k: nat)
    requires Keys(key)
    requires k <= |hosts| && Delimits(key, c)
    ensures SubstituteFrom(key, a + [c] + b, hosts, k) ==
        SubstituteFrom(key, a, hosts, k) + [c] + SubstituteFrom(key, b, hosts, k)
    decreases |hosts| - k
  {
    if k < |hosts| {
      var p, h := key(k), hosts[k];
      ReplaceSplit(a, c, b, p, h);
      SubstituteSplit(key, ReplaceAll(a, p, h), c, ReplaceAll(b, p, h), hosts, k + 1);
    }
  }

  lemma {:induction false} SubstituteSettles(key: nat -> string, t: Template, hosts: seq<string>)
    requires Keys(key)
    requires Delimited(key, t)
    ensures SubstituteFrom(key, Body(key, t), hosts, 0) == Body(key, Settled(key, t, hosts))
  {
    if t.More? {
      SubstituteSplit(key, FieldText(key, t.field), t.delimiter, Body(key, t.rest), hosts, 0);
      SubstituteSettles(key, t.rest, hosts);
    }
  }

  ghost predicate HoldsNoneOf(key: nat -> string, s: string, hosts: seq<string>) {
    forall j: nat :: j < |hosts| ==> !Occurs(s, key(j))
  }

  lemma {:induction false} NothingToSubstitute(key: nat -> string, s: string, hosts: seq<string>, k: nat)
    requires Keys(key)
    requires k <= |hosts| && forall j: nat :: k <= j < |hosts| ==> !Occurs(s, key(j))
    ensures SubstituteFrom(key, s, hosts, k) == s
    decreases |hosts| - k
  {
    if k < |hosts| {
      ReplaceNone(s, key(k), hosts[k]);
      NothingToSubstitute(key, s, hosts, k + 1);
    }
  }

  lemma {:induction false} SlotReached(key: nat -> string, i: nat, hosts: seq<string>, k: nat)
    requires Keys(key)
    requires k <= i < |hosts|
    ensures SubstituteFrom(key, key(i), hosts, k) == SubstituteFrom(key, hosts[i], hosts, i + 1)
    decreases i - k
  {
    if k == i {
      ReplaceWhole(key(i), hosts[i]);
    } else {
      ReplaceNone(key(i), key(k), hosts[k]);
      SlotReached(key, i, hosts, k + 1);
    }
  }

  /** The hosts that reach a slot hold no placeholder of the list. */
  ghost predicate CleanHosts(key: nat -> string, slots: set<nat>, hosts: seq<string>) {
    forall i :: i in slots && i < |hosts| ==> HoldsNoneOf(key, hosts[i], hosts)
  }

  lemma SettledField(key: nat -> string, f: Field, hosts: seq<string>)
    requires Keys(key)
    requires f.Text? ==> HoldsNone(key, f.text)
    requires f.Slot? && f.i < |hosts| ==> HoldsNoneOf(key, hosts[f.i], hosts)
    ensures SubstituteFrom(key, FieldText(key, f), hosts, 0) == FieldText(key, FilledField(f, hosts))
    ensures HoldsNoneOf(key, FieldText(key, FilledField(f, hosts)), hosts)
  {
    if f.Slot? && f.i < |hosts| {
      SlotReached(key, f.i, hosts, 0);
      NothingToSubstitute(key, hosts[f.i], hosts, f.i + 1);
    } else {
      forall j: nat | j < |hosts|
        ensures !Occurs(FieldText(key, f), key(j))
      {
      }
      NothingToSubstitute(key, FieldText(key, f), hosts, 0);
    }
  }

  lemma {:induction false} CleanSettles(key: nat -> string, t: Template, hosts: seq<string>)
    requires Keys(key)
    requires Delimited(key, t) && Plain(key, t) && CleanHosts(key, Slots(t), hosts)
    ensures Body(key, Settled(key, t, hosts)) == Body(key, Filled(t, hosts))
    ensures forall j: nat :: j < |hosts| ==> !OccursIn(key, Filled(t, hosts), key(j))
  {
    SettledField(key, t.field, hosts);
    if t.More? {
      CleanSettles(key, t.rest, hosts);
    }
  }

  lemma {:induction false} FilledDelimited(key: nat -> string, t: Template, hosts: seq<string>)
    requires Delimited(key, t)
    ensures Delimited(key, Filled(t, hosts))
  {
    if t.More? { FilledDelimited(key, t.rest, hosts); }
  }

  lemma {:induction false} HostIsThere(key: nat -> string, t: Template, hosts: seq<string>, i: nat, p: string)
    requires i in Slots(t) && i < |hosts| && Occurs(hosts[i], p)
    ensures OccursIn(key, Filled(t, hosts), p)
  {
    if t.field != Slot(i) {
      HostIsThere(key, t.rest, hosts, i, p);
    }
  }

  /** The loop equals the one-pass substitution and leaves no placeholder of the list behind,
      exactly when no host that reaches a slot holds a placeholder of the list. */
  lemma SubstituteExact(key: nat -> string, t: Template, hosts: seq<string>)
    requires Keys(key)
    requires Delimited(key, t) && Plain(key, t)
    ensures var out := SubstituteFrom(key, Body(key, t), hosts, 0);
            (out == Simultaneous(key, Body(key, t), hosts) && HoldsNoneOf(key, out, hosts)) <==>
              CleanHosts(key, Slots(t), hosts)
  {
    var out := SubstituteFrom(key, Body(key, t), hosts, 0);
    var filled := Filled(t, hosts);
    SubstituteSettles(key, t, hosts);
    SimultaneousFills(key, t, hosts);
    FilledDelimited(key, t, hosts);
    if CleanHosts(key, Slots(t), hosts) {
      CleanSettles(key, t, hosts);
      forall j: nat | j < |hosts|
        ensures !Occurs(out, key(j))
      {
        OccursInBody(key, filled, j);
      }
    } else {
      var i :| i in Slots(t) && i < |hosts| && !HoldsNoneOf(key, hosts[i], hosts);
      var j: nat :| j < |hosts| && Occurs(hosts[i], key(j));
      HostIsThere(key, t, hosts, i, key(j));
      OccursInBody(key, filled, j);
    }
  }

  /** With hosts that hold no placeholder at all, the ones that remain are exactly those of the
      slots past the end of the list. */
  lemma {:induction false} Remaining(key: nat -> string, t: Template, hosts: seq<string>, j: nat)
    requires Keys(key)
    requires Delimited(key, t) && Plain(key, t) && forall i :: 0 <= i < |hosts| ==> HoldsNone(key, hosts[i])
    ensures Occurs(SubstituteFrom(key, Body(key, t), hosts, 0), key(j)) <==> j in Slots(t) && j >= |hosts|
  {
    SubstituteExact(key, t, hosts);
    SimultaneousFills(key, t, hosts);
    FilledDelimited(key, t, hosts);
    OccursInBody(key, Filled(t, hosts), j);
    RemainingIn(key, t, hosts, j);
  }

  lemma {:induction false} RemainingIn(key: nat -> string, t: Template, hosts: seq<string>, j: nat)
    requires Keys(key)
    requires Plain(key, t) && forall i :: 0 <= i < |hosts| ==> HoldsNone(key, hosts[i])
    ensures OccursIn(key, Filled(t, hosts), key(j)) <==> j in Slots(t) && j >= |hosts|
  {
    if t.field.Slot? {
      assert OccursAt(key(t.field.i), key(t.field.i), 0);
    }
    if t.More? {
      RemainingIn(key, t.rest, hosts, j);
    }
  }

  /** The loop fills in `others` wherever each slot settles on its value there. */
  lemma {:induction false} SameSettled(key: nat -> string, t: Template, hosts: seq<string>, others: seq<string>)
    requires Keys(key) && Plain(key, t)
    requires forall i :: i in Slots(t) ==>
               i < |hosts| && i < |others| && SubstituteFrom(key, key(i), hosts, 0) == others[i]
    ensures Body(key, Settled(key, t, hosts)) == Body(key, Filled(t, others))
  {
    if t.field.Text? {
      NothingToSubstitute(key, t.field.text, hosts, 0);
    } else {
      assert t.field.i in Slots(t);
    }
    if t.More? {
      SameSettled(key, t.rest, hosts, others);
    }
  }

  // ---- any body, whatever overlaps ----

  /** No key can begin or end inside the text `h`, wherever it is put. */
  ghost predicate Solid(key: nat -> string, h: string) {
    forall a: string, b: string, k: nat, o: nat ::
      OccursAt(a + h + b, key(k), o) ==> o + |key(k)| <= |a| || o >= |a| + |h|
  }

  ghost predicate AllSolid(key: nat -> string, hosts: seq<string>) {
    forall i :: 0 <= i < |hosts| ==> Solid(key, hosts[i])
  }

  /** Occurrences of key `k` at `i` and of key `m` at `j` have a character in common. */
  predicate Overlap(key: nat -> string, i: nat, k: nat, j: nat, m: nat) {
    i < j + |key(m)| && j < i + |key(k)|
  }

  /** What the loop replaces: keys in the order of their numbers, each from the left, unless
      something it overlaps was replaced before. */
  ghost predicate Takes(key: nat -> string, s: string, i: nat, k: nat)
    decreases k, i
  {
    && OccursAt(s, key(k), i)
    && forall m: nat, j: nat {:trigger Overlap(key, i, k, j, m)} ::
         (m < k || (m == k && j < i)) && Overlap(key, i, k, j, m) ==> !Takes(key, s, j, m)
  }

  /** What a single pass replaces: the first `n` keys from the left, unless something it
      overlaps was replaced before. */
  ghost predicate Picks(key: nat -> string, s: string, n: nat, i: nat, k: nat)
    decreases i
  {
    && k < n && OccursAt(s, key(k), i)
    && forall m: nat, j: nat {:trigger Overlap(key, i, k, j, m)} ::
         m < n && j < i && Overlap(key, i, k, j, m) ==> !Picks(key, s, n, j, m)
  }

  /** The order of the numbers and the order of the text choose the same occurrences. */
  ghost predicate SameChoice(key: nat -> string, s: string, n: nat) {
    forall i: nat, k: nat :: k < n ==> (Takes(key, s, i, k) <==> Picks(key, s, n, i, k))
  }

  // What the loop has replaced.

  /** No occurrence of the first `n` keys that the loop takes reaches over `i`. */
  ghost predicate Between(key: nat -> string, s: string, n: nat, i: nat) {
    forall m: nat, j: nat :: m < n && j < i && Takes(key, s, j, m) ==> j + |key(m)| <= i
  }

  /** The body from `i` on, with what the loop takes of the first `n` keys replaced. */
  ghost function Replaced(key: nat -> string, s: string, hosts: seq<string>, n: nat, i: nat): string
    requires Keys(key) && n <= |hosts|
    decreases |s| - i
  {
    if i >= |s| then []
    else if exists m: nat :: m < n && Takes(key, s, i, m) then
      var m: nat :| m < n && Takes(key, s, i, m);
      hosts[m] + Replaced(key, s, hosts, n, i + |key(m)|)
    else [s[i]] + Replaced(key, s, hosts, n, i + 1)
  }

  lemma StartsOccurs(s: string, p: string, i: nat)
    requires i <= |s|
    ensures StartsWith(s[i..], p) <==> OccursAt(s, p, i)
    ensures OccursAt(s, p, i) ==> s[i..][|p|..] == s[i + |p|..]
  {
    if i + |p| <= |s| {
      assert s[i..][..|p|] == s[i..i + |p|];
    }
  }

  lemma OneKeyAt(key: nat -> string, s: string, i: nat, k: nat, m: nat)
    requires Keys(key) && OccursAt(s, key(k), i) && OccursAt(s, key(m), i)
    ensures k == m
  {
    StartsOccurs(s, key(k), i);
    StartsOccurs(s, key(m), i);
    SamePlace(key, s[i..], k, m);
  }

  lemma ReplacedAt(key: nat -> string, s: string, hosts: seq<string>, n: nat, i: nat, k: nat)
    requires Keys(key) && n <= |hosts| && k < n && Takes(key, s, i, k)
    ensures i + |key(k)| <= |s| && |key(k)| > 0
    ensures HostFirst(key, s, hosts, n, i, k)
  {
    var m: nat :| m < n && Takes(key, s, i, m)
      && Replaced(key, s, hosts, n, i) == hosts[m] + Replaced(key, s, hosts, n, i + |key(m)|);
    assert Takes(key, s, i, m);
    OneKeyAt(key, s, i, k, m);
  }

  lemma TakenApart(key: nat -> string, s: string, i: nat, k: nat, j: nat, m: nat)
    requires Takes(key, s, i, k) && Takes(key, s, j, m) && (i != j || k != m)
    ensures !Overlap(key, i, k, j, m)
  {
    assert Overlap(key, i, k, j, m) <==> Overlap(key, j, m, i, k);
  }

  lemma BetweenAfter(key: nat -> string, s: string, n: nat, i: nat, k: nat)
    requires Keys(key) && k < n && Takes(key, s, i, k) && Between(key, s, n, i)
    ensures Between(key, s, n, i + |key(k)|)
  {
    forall m: nat, j: nat | m < n && j < i + |key(k)| && Takes(key, s, j, m)
      ensures j + |key(m)| <= i + |key(k)|
    {
      if j >= i && (j != i || m != k) {
        TakenApart(key, s, i, k, j, m);
      }
    }
  }

  lemma BetweenNext(key: nat -> string, s: string, n: nat, i: nat)
    requires Between(key, s, n, i) && forall m: nat :: m < n ==> !Takes(key, s, i, m)
    ensures Between(key, s, n, i + 1)
  {
  }

  /** Where nothing is taken the text stands as it was. */
  lemma {:induction false} StandsAsItWas(key: nat -> string, s: string, hosts: seq<string>, n: nat, i: nat, e: nat)
    requires Keys(key) && n <= |hosts| && i <= e <= |s|
    requires forall m: nat, j: nat :: m < n && i <= j < e ==> !Takes(key, s, j, m)
    ensures Replaced(key, s, hosts, n, i) == s[i..e] + Replaced(key, s, hosts, n, e)
    decreases e - i
  {
    var rest := Replaced(key, s, hosts, n, e);
    if i < e {
      StandsAsItWas(key, s, hosts, n, i + 1, e);
      StandsOne(key, s, hosts, n, i);
      assert [s[i]] + (s[i + 1..e] + rest) == s[i..e] + rest;
    } else {
      assert s[i..e] + rest == rest;
    }
  }

  lemma StandsOne(key: nat -> string, s: string, hosts: seq<string>, n: nat, i: nat)
    requires Keys(key) && n <= |hosts| && i < |s| && forall m: nat :: m < n ==> !Takes(key, s, i, m)
    ensures Replaced(key, s, hosts, n, i) == [s[i]] + Replaced(key, s, hosts, n, i + 1)
  {
  }

  /** A key that stands in the text after replacing, with its beginning not in a host, stood
      there before, and nothing was taken inside it. */
  lemma {:induction false} StoodThere(key: nat -> string, s: string, hosts: seq<string>, n: nat, a: nat, i: nat, q: nat)
    requires Keys(key) && AllSolid(key, hosts) && n <= |hosts| && a < i <= |s|
    requires StartsWith(s[a..i] + Replaced(key, s, hosts, n, i), key(q))
    ensures OccursAt(s, key(q), a)
    ensures forall m: nat, j: nat :: m < n && i <= j < a + |key(q)| ==> !Takes(key, s, j, m)
    decreases |s| - i
  {
    if i == |s| {
      assert s[a..i] + [] == s[a..i];
      PartOfSlice(s, a, i, key(q));
    } else if m: nat :| m < n && Takes(key, s, i, m) {
      ReplacedAt(key, s, hosts, n, i, m);
      BeforeHost(key, s[a..i], hosts[m], Replaced(key, s, hosts, n, i + |key(m)|), q);
      PartOfSlice(s, a, i, key(q));
    } else {
      StandsOne(key, s, hosts, n, i);
      OneFurther(s, a, i, Replaced(key, s, hosts, n, i + 1));
      StoodThere(key, s, hosts, n, a, i + 1, q);
    }
  }

  lemma OneFurther(s: string, a: nat, i: nat, rest: string)
    requires a <= i < |s|
    ensures s[a..i] + ([s[i]] + rest) == s[a..i + 1] + rest
  {
    assert s[a..i + 1] == s[a..i] + [s[i]];
  }

  lemma PartOfSlice(s: string, a: nat, i: nat, p: string)
    requires a <= i <= |s| && StartsWith(s[a..i], p)
    ensures OccursAt(s, p, a) && a + |p| <= i
  {
    assert s[a..a + |p|] == s[a..i][..|p|];
  }

  /** A key at the start of a text that goes on with a host ends before the host. */
  lemma BeforeHost(key: nat -> string, u: string, h: string, rest: string, q: nat)
    requires Solid(key, h) && u != [] && StartsWith(u + (h + rest), key(q))
    ensures StartsWith(u, key(q))
  {
    var t := u + h + rest;
    assert u + (h + rest) == t;
    assert OccursAt(t, key(q), 0);
    assert |key(q)| <= |u|;
    assert t[..|key(q)|] == u[..|key(q)|];
  }

  /** A beginning in which the pattern does not begin is left alone. */
  lemma {:induction false} ReplaceSkip(u: string, t: string, p: string, h: string)
    requires p != [] && forall o: nat :: o < |u| ==> !OccursAt(u + t, p, o)
    ensures ReplaceAll(u + t, p, h) == u + ReplaceAll(t, p, h)
    decreases |u|
  {
    if u == [] {
      assert u + t == t;
    } else {
      var s := u + t;
      assert !OccursAt(s, p, 0);
      assert s[1..] == u[1..] + t;
      forall o: nat | o < |u[1..]|
        ensures !OccursAt(u[1..] + t, p, o)
      {
        if OccursAt(s[1..], p, o) { OccursInSuffix(s, p, 1, o); }
      }
      ReplaceSkip(u[1..], t, p, h);
    }
  }

  lemma SolidSkip(key: nat -> string, h: string, t: string, k: nat, g: string)
    requires Keys(key) && Solid(key, h)
    ensures ReplaceAll(h + t, key(k), g) == h + ReplaceAll(t, key(k), g)
  {
    assert [] + h + t == h + t && key(k) != [];
    forall o: nat | o < |h|
      ensures !OccursAt(h + t, key(k), o)
    {
      assert OccursAt([] + h + t, key(k), o) ==> o + |key(k)| <= 0 || o >= |h|;
    }
    ReplaceSkip(h, t, key(k), g);
  }

  lemma ReplaceAtStart(p: string, t: string, h: string)
    requires p != []
    ensures ReplaceAll(p + t, p, h) == h + ReplaceAll(t, p, h)
  {
    assert (p + t)[..|p|] == p && (p + t)[|p|..] == t;
  }

  /** A key found in the text after replacing the keys before it is one the loop takes. */
  lemma FoundIsTaken(key: nat -> string, s: string, hosts: seq<string>, k: nat, i: nat)
    requires Keys(key) && AllSolid(key, hosts) && k < |hosts| && i < |s| && Between(key, s, k + 1, i)
    requires forall m: nat :: m < k ==> !Takes(key, s, i, m)
    requires StartsWith(Replaced(key, s, hosts, k, i), key(k))
    ensures Takes(key, s, i, k)
  {
    assert s[i..i + 1] == [s[i]];
    StoodThere(key, s, hosts, k, i, i + 1, k);
  }

  /** One more ReplaceAll, from `i` on, replaces what the loop takes of one more key. */
  ghost predicate OneMore(key: nat -> string, s: string, hosts: seq<string>, k: nat, i: nat)
    requires Keys(key) && k < |hosts|
  {
    ReplaceAll(Replaced(key, s, hosts, k, i), key(k), hosts[k]) == Replaced(key, s, hosts, k + 1, i)
  }

  lemma {:induction false} NextKey(key: nat -> string, s: string, hosts: seq<string>, k: nat, i: nat)
    requires Keys(key) && AllSolid(key, hosts) && k < |hosts| && i <= |s| && Between(key, s, k + 1, i)
    ensures OneMore(key, s, hosts, k, i)
    decreases |s| - i
  {
    if i == |s| {
      NothingLeft(key, s, hosts, k);
    } else if m: nat :| m <= k && Takes(key, s, i, m) {
      TakesInside(key, s, i, m);
      BetweenAfter(key, s, k + 1, i, m);
      NextKey(key, s, hosts, k, i + |key(m)|);
      SomethingTaken(key, s, hosts, k, i, m);
    } else {
      BetweenNext(key, s, k + 1, i);
      NextKey(key, s, hosts, k, i + 1);
      NothingTaken(key, s, hosts, k, i);
    }
  }

  lemma NothingLeft(key: nat -> string, s: string, hosts: seq<string>, k: nat)
    requires Keys(key) && k < |hosts|
    ensures OneMore(key, s, hosts, k, |s|)
  {
  }

  lemma TakesInside(key: nat -> string, s: string, i: nat, k: nat)
    requires Keys(key) && Takes(key, s, i, k)
    ensures |key(k)| > 0 && i + |key(k)| <= |s| && s[i..i + |key(k)|] == key(k)
  {
  }

  lemma SomethingTaken(key: nat -> string, s: string, hosts: seq<string>, k: nat, i: nat, m: nat)
    requires Keys(key) && AllSolid(key, hosts) && m <= k < |hosts| && Takes(key, s, i, m)
    requires OneMore(key, s, hosts, k, i + |key(m)|)
    ensures OneMore(key, s, hosts, k, i)
  {
    if m < k { OneEarlier(key, s, hosts, k, i, m); } else { TakenNow(key, s, hosts, k, i); }
  }

  lemma OneEarlier(key: nat -> string, s: string, hosts: seq<string>, k: nat, i: nat, m: nat)
    requires Keys(key) && AllSolid(key, hosts) && m < k < |hosts| && Takes(key, s, i, m)
    requires OneMore(key, s, hosts, k, i + |key(m)|)
    ensures OneMore(key, s, hosts, k, i)
  {
    ReplacedAt(key, s, hosts, k, i, m);
    ReplacedAt(key, s, hosts, k + 1, i, m);
    TakenEarlier(key, s, hosts, k, i, m);
  }

  lemma TakenEarlier(key: nat -> string, s: string, hosts: seq<string>, k: nat, i: nat, m: nat)
    requires Keys(key) && m < k < |hosts| && Solid(key, hosts[m]) && i + |key(m)| <= |s|
    requires HostFirst(key, s, hosts, k, i, m) && HostFirst(key, s, hosts, k + 1, i, m)
    requires OneMore(key, s, hosts, k, i + |key(m)|)
    ensures OneMore(key, s, hosts, k, i)
  {
    AfterHost(key, hosts[m], Replaced(key, s, hosts, k, i), Replaced(key, s, hosts, k + 1, i),
              Replaced(key, s, hosts, k, i + |key(m)|), Replaced(key, s, hosts, k + 1, i + |key(m)|), k, hosts[k]);
  }

  /** What was replaced begins with host `m` at `i`. */
  ghost predicate HostFirst(key: nat -> string, s: string, hosts: seq<string>, n: nat, i: nat, m: nat)
    requires Keys(key) && m < n <= |hosts|
  {
    Replaced(key, s, hosts, n, i) == hosts[m] + Replaced(key, s, hosts, n, i + |key(m)|)
  }

  lemma AfterHost(key: nat -> string, h: string, a: string, b: string, x: string, y: string, k: nat, g: string)
    requires Keys(key) && Solid(key, h) && a == h + x && b == h + y && ReplaceAll(x, key(k), g) == y
    ensures ReplaceAll(a, key(k), g) == b
  {
    SolidSkip(key, h, x, k, g);
  }

  lemma TakenNow(key: nat -> string, s: string, hosts: seq<string>, k: nat, i: nat)
    requires Keys(key) && k < |hosts| && Takes(key, s, i, k)
    requires OneMore(key, s, hosts, k, i + |key(k)|)
    ensures OneMore(key, s, hosts, k, i)
  {
    StillStands(key, s, hosts, k, i);
    ReplaceAtStart(key(k), Replaced(key, s, hosts, k, i + |key(k)|), hosts[k]);
    ReplacedAt(key, s, hosts, k + 1, i, k);
  }

  lemma StillStands(key: nat -> string, s: string, hosts: seq<string>, k: nat, i: nat)
    requires Keys(key) && k < |hosts| && Takes(key, s, i, k)
    ensures Replaced(key, s, hosts, k, i) == key(k) + Replaced(key, s, hosts, k, i + |key(k)|)
  {
    TakesInside(key, s, i, k);
    NoneInside(key, s, i, k);
    StandsAsItWas(key, s, hosts, k, i, i + |key(k)|);
  }

  lemma NoneInside(key: nat -> string, s: string, i: nat, k: nat)
    requires Keys(key) && Takes(key, s, i, k)
    ensures forall m: nat, j: nat :: m < k && i <= j < i + |key(k)| ==> !Takes(key, s, j, m)
  {
    forall m: nat, j: nat | m < k && i <= j < i + |key(k)|
      ensures !Takes(key, s, j, m)
    {
      assert |key(m)| > 0;
      assert Overlap(key, i, k, j, m);
    }
  }

  lemma NothingTaken(key: nat -> string, s: string, hosts: seq<string>, k: nat, i: nat)
    requires Keys(key) && AllSolid(key, hosts) && k < |hosts| && i < |s| && Between(key, s, k + 1, i)
    requires forall m: nat :: m <= k ==> !Takes(key, s, i, m)
    requires OneMore(key, s, hosts, k, i + 1)
    ensures OneMore(key, s, hosts, k, i)
  {
    var t, rest := Replaced(key, s, hosts, k, i), Replaced(key, s, hosts, k, i + 1);
    StandsOne(key, s, hosts, k, i);
    StandsOne(key, s, hosts, k + 1, i);
    if StartsWith(t, key(k)) {
      FoundIsTaken(key, s, hosts, k, i);
    }
    ReplaceLater(s[i], rest, key(k), hosts[k]);
  }

  lemma {:induction false} FromHost(key: nat -> string, s: string, hosts: seq<string>, k: nat)
    requires Keys(key) && AllSolid(key, hosts) && k <= |hosts|
    ensures SubstituteFrom(key, Replaced(key, s, hosts, k, 0), hosts, k) == Replaced(key, s, hosts, |hosts|, 0)
    decreases |hosts| - k
  {
    if k < |hosts| {
      NextKey(key, s, hosts, k, 0);
      FromHost(key, s, hosts, k + 1);
    }
  }

  /** The loop replaces exactly what it takes. */
  lemma LoopReplaces(key: nat -> string, s: string, hosts: seq<string>)
    requires Keys(key) && AllSolid(key, hosts)
    ensures SubstituteFrom(key, s, hosts, 0) == Replaced(key, s, hosts, |hosts|, 0)
  {
    StandsAsItWas(key, s, hosts, 0, 0, |s|);
    assert s[0..|s|] + [] == s;
    FromHost(key, s, hosts, 0);
  }

  // What the single pass replaces.

  ghost predicate PickedBetween(key: nat -> string, s: string, n: nat, i: nat) {
    forall m: nat, j: nat :: m < n && j < i && Picks(key, s, n, j, m) ==> j + |key(m)| <= i
  }

  /** Between what it picked before, the pass picks whatever stands there. */
  lemma PicksHere(key: nat -> string, s: string, n: nat, i: nat, k: nat)
    requires PickedBetween(key, s, n, i) && k < n
    ensures Picks(key, s, n, i, k) <==> OccursAt(s, key(k), i)
  {
  }

  lemma NotPickedInside(key: nat -> string, s: string, n: nat, i: nat, k: nat, j: nat, m: nat)
    requires Keys(key) && k < n && Picks(key, s, n, i, k) && i < j < i + |key(k)|
    ensures !Picks(key, s, n, j, m)
  {
    assert |key(m)| > 0;
    assert Overlap(key, j, m, i, k);
  }

  lemma PickedAfter(key: nat -> string, s: string, n: nat, i: nat, k: nat)
    requires Keys(key) && k < n && PickedBetween(key, s, n, i) && Picks(key, s, n, i, k)
    ensures PickedBetween(key, s, n, i + |key(k)|)
  {
    forall m: nat, j: nat | m < n && j < i + |key(k)| && Picks(key, s, n, j, m)
      ensures j + |key(m)| <= i + |key(k)|
    {
      if j > i {
        NotPickedInside(key, s, n, i, k, j, m);
      } else if j == i {
        OneKeyAt(key, s, i, k, m);
      }
    }
  }

  lemma PassHere(key: nat -> string, s: string, hosts: seq<string>, i: nat, k: nat)
    requires Keys(key) && k < |hosts| && OccursAt(s, key(k), i)
    ensures Simultaneous(key, s[i..], hosts) == hosts[k] + Simultaneous(key, s[i + |key(k)|..], hosts)
  {
    StartsOccurs(s, key(k), i);
    assert HostAtStart(key, s[i..], hosts, k);
    AtStart(key, s[i..], k, hosts);
  }

  lemma PassOn(key: nat -> string, s: string, hosts: seq<string>, i: nat)
    requires Keys(key) && i < |s| && forall k: nat :: k < |hosts| ==> !OccursAt(s, key(k), i)
    ensures Simultaneous(key, s[i..], hosts) == [s[i]] + Simultaneous(key, s[i + 1..], hosts)
  {
    var t := s[i..];
    assert t[1..] == s[i + 1..];
    forall k: nat
      ensures !HostAtStart(key, t, hosts, k)
    {
      StartsOccurs(s, key(k), i);
      assert k < |hosts| ==> !OccursAt(s, key(k), i);
    }
  }

  // When they are the same.

  /** From `i` on both write the same. */
  ghost predicate Alike(key: nat -> string, s: string, hosts: seq<string>, i: nat)
    requires Keys(key) && i <= |s|
  {
    Replaced(key, s, hosts, |hosts|, i) == Simultaneous(key, s[i..], hosts)
  }

  lemma AlikeWithKey(key: nat -> string, s: string, hosts: seq<string>, i: nat, k: nat)
    requires Keys(key) && k < |hosts| && Takes(key, s, i, k) && i + |key(k)| <= |s|
    ensures Alike(key, s, hosts, i) <==> Alike(key, s, hosts, i + |key(k)|)
  {
    ReplacedAt(key, s, hosts, |hosts|, i, k);
    PassHere(key, s, hosts, i, k);
    SameBehind(hosts[k], Replaced(key, s, hosts, |hosts|, i + |key(k)|),
               Simultaneous(key, s[i + |key(k)|..], hosts));
  }

  lemma AlikeWithout(key: nat -> string, s: string, hosts: seq<string>, i: nat)
    requires Keys(key) && i < |s| && forall k: nat :: k < |hosts| ==> !OccursAt(s, key(k), i)
    ensures Alike(key, s, hosts, i) <==> Alike(key, s, hosts, i + 1)
  {
    PassOn(key, s, hosts, i);
    StandsOne(key, s, hosts, |hosts|, i);
    SameBehind([s[i]], Replaced(key, s, hosts, |hosts|, i + 1), Simultaneous(key, s[i + 1..], hosts));
  }

  lemma SameBehind(front: string, x: string, y: string)
    ensures front + x == front + y <==> x == y
  {
    assert (front + x)[|front|..] == x && (front + y)[|front|..] == y;
  }

  /** Where both choose the same, they write the same. */
  lemma {:induction false} SameText(key: nat -> string, s: string, hosts: seq<string>, i: nat)
    requires Keys(key) && SameChoice(key, s, |hosts|) && i <= |s| && PickedBetween(key, s, |hosts|, i)
    ensures Alike(key, s, hosts, i)
    decreases |s| - i
  {
    if i == |s| {
      AlikeAtEnd(key, s, hosts);
    } else if k: nat :| k < |hosts| && OccursAt(s, key(k), i) {
      TakesHere(key, s, |hosts|, i, k);
      SameText(key, s, hosts, i + |key(k)|);
      AlikeWithKey(key, s, hosts, i, k);
    } else {
      SameText(key, s, hosts, i + 1);
      AlikeWithout(key, s, hosts, i);
    }
  }

  lemma AlikeAtEnd(key: nat -> string, s: string, hosts: seq<string>)
    requires Keys(key)
    ensures Alike(key, s, hosts, |s|)
  {
  }

  lemma TakesHere(key: nat -> string, s: string, n: nat, i: nat, k: nat)
    requires Keys(key) && SameChoice(key, s, n) && PickedBetween(key, s, n, i) && k < n && OccursAt(s, key(k), i)
    ensures Takes(key, s, i, k) && |key(k)| > 0 && i + |key(k)| <= |s|
    ensures PickedBetween(key, s, n, i + |key(k)|)
  {
    PicksHere(key, s, n, i, k);
    TakesInside(key, s, i, k);
    PickedAfter(key, s, n, i, k);
  }

  /** No host begins like a key. */
  ghost predicate FreshStarts(key: nat -> string, hosts: seq<string>)
    requires Keys(key)
  {
    forall i, k: nat :: 0 <= i < |hosts| ==> hosts[i] != [] && hosts[i][0] != key(k)[0]
  }

  /** They chose the same before `i`. */
  ghost predicate SameBefore(key: nat -> string, s: string, n: nat, i: nat) {
    forall j: nat, k: nat :: j < i && k < n ==> (Takes(key, s, j, k) <==> Picks(key, s, n, j, k))
  }

  lemma SameHere(key: nat -> string, s: string, hosts: seq<string>, i: nat, k: nat)
    requires Keys(key) && FreshStarts(key, hosts) && k < |hosts| && OccursAt(s, key(k), i)
    requires i <= |s| && Alike(key, s, hosts, i)
    ensures Takes(key, s, i, k)
  {
    if m: nat :| m < |hosts| && Takes(key, s, i, m) {
      OneKeyAt(key, s, i, k, m);
    } else {
      FirstCharacter(s, key(k), i);
      PassHere(key, s, hosts, i, k);
      StandsOne(key, s, hosts, |hosts|, i);
      SameFirst(s[i], Replaced(key, s, hosts, |hosts|, i + 1), hosts[k],
                Simultaneous(key, s[i + |key(k)|..], hosts));
    }
  }

  lemma FirstCharacter(s: string, p: string, i: nat)
    requires p != [] && OccursAt(s, p, i)
    ensures s[i] == p[0]
  {
    assert s[i] == s[i..i + |p|][0];
  }

  lemma SameFirst(c: char, x: string, h: string, y: string)
    requires h != [] && [c] + x == h + y
    ensures c == h[0]
  {
    assert ([c] + x)[0] == c && (h + y)[0] == h[0];
  }

  /** Inside what both chose, neither chooses anything. */
  lemma NothingInside(key: nat -> string, s: string, n: nat, i: nat, k: nat)
    requires Keys(key) && k < n && SameBefore(key, s, n, i) && Takes(key, s, i, k) && Picks(key, s, n, i, k)
    ensures SameBefore(key, s, n, i + |key(k)|)
  {
    forall j: nat, m: nat | j < i + |key(k)| && m < n
      ensures Takes(key, s, j, m) <==> Picks(key, s, n, j, m)
    {
      assert |key(m)| > 0;
      if j == i && (Takes(key, s, j, m) || Picks(key, s, n, j, m)) {
        OneKeyAt(key, s, i, k, m);
      } else if j > i {
        assert Overlap(key, j, m, i, k) && Overlap(key, i, k, j, m);
        if Takes(key, s, j, m) {
          TakenApart(key, s, i, k, j, m);
        }
      }
    }
  }

  /** And where they write the same, they chose the same. */
  lemma {:induction false} SameChosen(key: nat -> string, s: string, hosts: seq<string>, i: nat)
    requires Keys(key) && FreshStarts(key, hosts) && i <= |s| && PickedBetween(key, s, |hosts|, i)
    requires SameBefore(key, s, |hosts|, i) && Alike(key, s, hosts, i)
    ensures SameBefore(key, s, |hosts|, |s|)
    decreases |s| - i
  {
    var n := |hosts|;
    if i == |s| {
    } else if k: nat :| k < n && OccursAt(s, key(k), i) {
      SameHere(key, s, hosts, i, k);
      PicksHere(key, s, n, i, k);
      TakesInside(key, s, i, k);
      AlikeWithKey(key, s, hosts, i, k);
      PickedAfter(key, s, n, i, k);
      NothingInside(key, s, n, i, k);
      SameChosen(key, s, hosts, i + |key(k)|);
    } else {
      AlikeWithout(key, s, hosts, i);
      SameChosen(key, s, hosts, i + 1);
    }
  }

  lemma NothingAtTheEnd(key: nat -> string, s: string, n: nat)
    requires Keys(key) && SameBefore(key, s, n, |s|)
    ensures SameChoice(key, s, n)
  {
    forall i: nat, k: nat | k < n && i >= |s|
      ensures !OccursAt(s, key(k), i)
    {
      assert |key(k)| > 0;
    }
  }

  /** For every body, and hosts in which no key can begin or end: the loop does what one
      simultaneous pass does if taking the keys in the order of their numbers and in the order
      of the text chooses the same occurrences; and only then, if no host begins like a key. */
  lemma SubstituteChosen(key: nat -> string, s: string, hosts: seq<string>)
    requires Keys(key) && AllSolid(key, hosts)
    ensures SameChoice(key, s, |hosts|) ==> SubstituteFrom(key, s, hosts, 0) == Simultaneous(key, s, hosts)
    ensures FreshStarts(key, hosts) && SubstituteFrom(key, s, hosts, 0) == Simultaneous(key, s, hosts) ==>
              SameChoice(key, s, |hosts|)
  {
    LoopReplaces(key, s, hosts);
    assert s[0..] == s;
    if SameChoice(key, s, |hosts|) {
      SameText(key, s, hosts, 0);
    }
    if FreshStarts(key, hosts) && SubstituteFrom(key, s, hosts, 0) == Simultaneous(key, s, hosts) {
      SameChosen(key, s, hosts, 0);
      NothingAtTheEnd(key, s, |hosts|);
    }
  }

  /** No two occurrences of the first `n` keys overlap. */
  ghost predicate Apart(key: nat -> string, s: string, n: nat) {
    forall k: nat, m: nat, i: nat, j: nat ::
      k < n && m < n && i < j && OccursAt(s, key(k), i) && OccursAt(s, key(m), j) ==> i + |key(k)| <= j
  }

  /** Then everything is chosen, in either order. */
  lemma ApartIsSame(key: nat -> string, s: string, n: nat)
    requires Keys(key) && Apart(key, s, n)
    ensures SameChoice(key, s, n)
  {
    forall i: nat, k: nat | k < n
      ensures Takes(key, s, i, k) <==> Picks(key, s, n, i, k)
    {
      if OccursAt(s, key(k), i) {
        AllChosen(key, s, n, i, k);
      }
    }
  }

  lemma AllChosen(key: nat -> string, s: string, n: nat, i: nat, k: nat)
    requires Keys(key) && Apart(key, s, n) && k < n && OccursAt(s, key(k), i)
    ensures Takes(key, s, i, k) && Picks(key, s, n, i, k)
  {
    forall m: nat, j: nat | m < n && OccursAt(s, key(m), j) && (m != k || j != i)
      ensures !Overlap(key, i, k, j, m)
    {
      if i == j {
        OneKeyAt(key, s, i, k, m);
      }
    }
  }

  /** On every body in which no two occurrences of listed keys overlap, for hosts in which no
      key can begin or end, the loop does what one simultaneous pass does. */
  lemma SubstituteApart(key: nat -> string, s: string, hosts: seq<string>)
    requires Keys(key) && AllSolid(key, hosts) && Apart(key, s, |hosts|)
    ensures SubstituteFrom(key, s, hosts, 0) == Simultaneous(key, s, hosts)
  {
    ApartIsSame(key, s, |hosts|);
    SubstituteChosen(key, s, hosts);
  }
}
