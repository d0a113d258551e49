/** The hosts section of the YDB configuration: internal/domain/dbconfig/ydb.go. */
module YdbHosts {
  import opened Decimal
  import opened Substitution

  const PREFIX := "__YDB_HOST_"

  function Placeholder(i: nat): string {
    PREFIX + Numeral(i) + "__"
  }

  // ---- placeholders are keys ----

  lemma PlaceholderAt(i: nat, k: nat)
    requires k < |Placeholder(i)|
    ensures k < 11 ==> Placeholder(i)[k] == PREFIX[k]
    ensures 11 <= k < 11 + |Numeral(i)| ==> IsDigit(Placeholder(i)[k])
    ensures k >= 11 + |Numeral(i)| ==> Placeholder(i)[k] == '_'
  {
    if 11 <= k < 11 + |Numeral(i)| {
      assert Placeholder(i)[k] == Numeral(i)[k - 11];
    }
  }

  /** The letter Y stands in a placeholder once, at offset 2. */
  lemma LetterY(i: nat, k: nat)
    requires k < |Placeholder(i)|
    ensures Placeholder(i)[k] == 'Y' <==> k == 2
  {
    PlaceholderAt(i, k);
  }

  lemma OccurrenceHasY(s: string, k: nat, o: nat)
    requires OccursAt(s, Placeholder(k), o)
    ensures o + 2 < |s| && s[o + 2] == 'Y'
  {
    LetterY(k, 2);
    assert s[o..o + |Placeholder(k)|][2] == s[o + 2];
  }

  lemma NotInPlaceholders(c: char)
    requires c in " \nh"
    ensures Delimits(Placeholder, c)
  {
    forall j: nat
      ensures c !in Placeholder(j)
    {
      forall k: nat | k < |Placeholder(j)|
        ensures Placeholder(j)[k] != c
      {
        PlaceholderAt(j, k);
      }
    }
  }

  lemma PrefixIsSame(k: nat, i: nat)
    requires StartsWith(Placeholder(i), Placeholder(k))
    ensures k == i
  {
    var p, q := Placeholder(i), Placeholder(k);
    var rest := p[|q|..];
    assert p == q + rest;
    assert p[11..] == Numeral(i) + "__";
    assert (q + rest)[11..] == Numeral(k) + ("__" + rest);
    NumeralDelimited(i, "__", k, "__" + rest);
  }

  /** `__YDB_HOST_1__` is no part of `__YDB_HOST_10__`: no placeholder is part of another. */
  lemma PlaceholdersAreKeys()
    ensures Keys(Placeholder)
  {
    forall i: nat, k: nat | Occurs(Placeholder(i), Placeholder(k))
      ensures i == k
    {
      var o: nat :| OccursAt(Placeholder(i), Placeholder(k), o);
      OccurrenceHasY(Placeholder(i), k, o);
      LetterY(i, o + 2);
      PrefixIsSame(k, i);
    }
  }

  lemma NoYNoPlaceholder(s: string)
    requires 'Y' !in s
    ensures HoldsNone(Placeholder, s)
  {
    forall k: nat
      ensures !Occurs(s, Placeholder(k))
    {
      if o: nat :| OccursAt(s, Placeholder(k), o) {
        OccurrenceHasY(s, k, o);
      }
    }
  }

  // ---- the renderer ----

  function Zone(i: nat): string {
    if i % 3 == 0 then "zone-a" else if i % 3 == 1 then "zone-b" else "zone-c"
  }

  /** What follows the host in row `i`, without the last newline. */
  function RowTail(i: nat): string {
    "  host_config_id: 1\n" + "  walle_location:\n" + "    body: " + Numeral(i + 1) +
    "\n" + "    data_center: '" + Zone(i) + "'\n" + "    rack: '" + Numeral(i + 1) + "'"
  }

  function Row(i: nat, host: string): string {
    "- host: " + host + "\n" + RowTail(i) + "\n"
  }

  lemma Spelled(
    head: string, host: string, nl: string, config: string, place: string, body: string, number: string,
    center: string, zone: string, quoted: string, rack: string, quote: string, tail: string)
    requires tail == config + place + body + number + nl + center + zone + quoted + rack + number + quote
    ensures head + host + nl + tail + nl ==
              head + host + nl + config + place + body + number + nl + center + zone + quoted + rack + number + quote
              + nl
  {
  }

  lemma TailParts(i: nat, number: string, zone: string)
    requires number == Numeral(i + 1) && zone == Zone(i)
    ensures RowTail(i) ==
              "  host_config_id: 1\n" + "  walle_location:\n" + "    body: " + number + "\n"
              + "    data_center: '" + zone + "'\n" + "    rack: '" + number + "'"
  {
  }

  /** Row `i` spelled out: the host, its number from one on as body and rack, and the three
      zones in turn. */
  lemma RowExact(i: nat, host: string) returns (number: string, zone: string)
    ensures Value(number) == i + 1 && number != "" && number[0] != '0'
        && forall k :: 0 <= k < |number| ==> IsDigit(number[k])
    ensures (i % 3 == 0 ==> zone == "zone-a") && (i % 3 == 1 ==> zone == "zone-b") && (i % 3 == 2 ==> zone == "zone-c")
    ensures Row(i, host) ==
              "- host: " + host + "\n" + "  host_config_id: 1\n" + "  walle_location:\n" + "    body: " + number
              + "\n" + "    data_center: '" + zone + "'\n" + "    rack: '" + number + "'" + "\n"
  {
    number, zone := Numeral(i + 1), Zone(i);
    NumeralExact(i + 1);
    TailParts(i, number, zone);
    Spelled("- host: ", host, "\n", "  host_config_id: 1\n", "  walle_location:\n", "    body: ", number,
            "    data_center: '", zone, "'\n", "    rack: '", "'", RowTail(i));
  }

  /** A placeholder is the number of its host between fixed texts. */
  lemma PlaceholderExact(i: nat) returns (number: string)
    ensures Value(number) == i && number != "" && (number[0] != '0' || number == "0")
        && forall k :: 0 <= k < |number| ==> IsDigit(number[k])
    ensures Placeholder(i) == "__YDB_HOST_" + number + "__"
  {
    number := Numeral(i);
    NumeralExact(i);
  }

  /** The host in row `i`, or its placeholder where the list is too short. */
  function HostOr(hosts: seq<string>, i: nat): string {
    if i < |hosts| then hosts[i] else Placeholder(i)
  }

  function Rows(i: nat, n: nat, hosts: seq<string>): string
    requires i <= n
    decreases n - i
  {
    if i == n then "" else Row(i, HostOr(hosts, i)) + Rows(i + 1, n, hosts)
  }

  /** The document with the hosts known so far. */
  function Document(before: string, n: nat, hosts: seq<string>, after: string): string {
    before + "hosts:\n" + Rows(0, n, hosts) + after
  }

  function RowCount(hostCount: int): (n: nat) {
    if hostCount < 1 then 1 else hostCount
  }

  /** renderYDBYAML, with the text before and after the hosts section given. */
  method RenderHosts(before: string, hostCount0: int, after: string) returns (b: string)
    ensures b == Document(before, RowCount(hostCount0), [], after)
    ensures RowCount(hostCount0) == if hostCount0 < 1 then 1 else hostCount0
  {
    var hostCount := hostCount0;
    if hostCount < 1 {
      hostCount := 1;
    }
    var zones := ["zone-a", "zone-b", "zone-c"];
    b := before + "hosts:\n";
    assert b + Rows(0, hostCount, []) == before + "hosts:\n" + Rows(0, hostCount, []);
    var i := 0;
    while i < hostCount
      invariant 0 <= i <= hostCount
      invariant b + Rows(i, hostCount, []) == before + "hosts:\n" + Rows(0, hostCount, [])
    {
      var tail := "  host_config_id: 1\n" + "  walle_location:\n" + "    body: " + Numeral(i + 1) +
        "\n" + "    data_center: '" + zones[i % 3] + "'\n" + "    rack: '" + Numeral(i + 1) + "'";
      assert tail == RowTail(i);
      var row := "- host: " + Placeholder(i) + "\n" + tail + "\n";
      RowsStep(b, row, i, hostCount, []);
      b := b + row;
      i := i + 1;
    }
    assert b + "" == b;
    b := b + after;
  }

  lemma RowsStep(b: string, row: string, i: nat, n: nat, hosts: seq<string>)
    requires i < n && row == Row(i, HostOr(hosts, i))
    ensures b + Rows(i, n, hosts) == (b + row) + Rows(i + 1, n, hosts)
  {
  }

  /** SubstituteYDBHostPlaceholders, one ReplaceAll for each host. */
  method SubstituteYDBHostPlaceholders(body0: string, hosts: seq<string>) returns (body: string)
    ensures Keys(Placeholder) && body == SubstituteFrom(Placeholder, body0, hosts, 0)
  {
    PlaceholdersAreKeys();
    body := body0;
    for i := 0 to |hosts|
      invariant SubstituteFrom(Placeholder, body, hosts, i) == SubstituteFrom(Placeholder, body0, hosts, 0)
    {
      body := ReplaceAll(body, Placeholder(i), hosts[i]);
    }
  }

  // ---- the document as a template ----

  function RowsTemplate(i: nat, n: nat, after: string): Template
    requires i <= n
    decreases n - i
  {
    if i == n then Last(Text(after))
    else More(Text("- host:"), ' ', More(Slot(i), '\n', More(Text(RowTail(i)), '\n', RowsTemplate(i + 1, n, after))))
  }

  function DocumentTemplate(before: string, n: nat, after: string): Template {
    More(Text(before + "hosts:"), '\n', RowsTemplate(0, n, after))
  }

  lemma FilledMore(key: nat -> string, f: Field, c: char, rest: Template, hosts: seq<string>)
    ensures Body(key, Filled(More(f, c, rest), hosts)) ==
        FieldText(key, FilledField(f, hosts)) + [c] + Body(key, Filled(rest, hosts))
  {
  }

  lemma FilledThree(key: nat -> string, x: string, i: nat, y: string, rest: Template, hosts: seq<string>)
    ensures Body(key, Filled(More(Text(x), ' ', More(Slot(i), '\n', More(Text(y), '\n', rest))), hosts)) ==
              x + [' '] + (FieldText(key, FilledField(Slot(i), hosts)) + ['\n']
                  + (y + ['\n'] + Body(key, Filled(rest, hosts))))
  {
    var tail := More(Text(y), '\n', rest);
    var slot := More(Slot(i), '\n', tail);
    FilledMore(key, Text(y), '\n', rest, hosts);
    FilledMore(key, Slot(i), '\n', tail, hosts);
    FilledMore(key, Text(x), ' ', slot, hosts);
  }

  lemma SlotsThree(x: string, i: nat, y: string, rest: Template)
    ensures Slots(More(Text(x), ' ', More(Slot(i), '\n', More(Text(y), '\n', rest)))) == {i} + Slots(rest)
  {
    var tail := More(Text(y), '\n', rest);
    assert Slots(tail) == Slots(rest);
    assert Slots(More(Slot(i), '\n', tail)) == {i} + Slots(tail);
  }

  lemma RowJoined(i: nat, host: string, rest: string)
    ensures Row(i, host) + rest == "- host:" + [' '] + (host + ['\n'] + (RowTail(i) + ['\n'] + rest))
  {
    assert "- host: " == "- host:" + [' '];
  }

  lemma {:induction false} RowsBody(i: nat, n: nat, hosts: seq<string>, after: string)
    requires i <= n
    ensures Body(Placeholder, Filled(RowsTemplate(i, n, after), hosts)) == Rows(i, n, hosts) + after
    decreases n - i
  {
    if i < n {
      RowsBody(i + 1, n, hosts, after);
      var rest := RowsTemplate(i + 1, n, after);
      FilledThree(Placeholder, "- host:", i, RowTail(i), rest, hosts);
      RowJoined(i, HostOr(hosts, i), Body(Placeholder, Filled(rest, hosts)));
      RowsStep([], Row(i, HostOr(hosts, i)), i, n, hosts);
      Regroup(Row(i, HostOr(hosts, i)), Rows(i + 1, n, hosts), after);
    } else {
      assert "" + after == after;
    }
  }

  lemma Regroup(a: string, b: string, c: string)
    ensures (a + b) + c == a + (b + c)
  {
  }

  /** The filled template is the document with row `i` reading exactly host `i`. */
  lemma DocumentBody(before: string, n: nat, hosts: seq<string>, after: string)
    ensures Body(Placeholder, Filled(DocumentTemplate(before, n, after), hosts)) == Document(before, n, hosts, after)
  {
    RowsBody(0, n, hosts, after);
    FilledMore(Placeholder, Text(before + "hosts:"), '\n', RowsTemplate(0, n, after), hosts);
    Joined(before, "hosts:", "hosts:\n", Rows(0, n, hosts), after);
  }

  lemma Joined(before: string, head: string, line: string, rows: string, after: string)
    requires line == head + ['\n']
    ensures (before + head) + ['\n'] + (rows + after) == before + line + rows + after
  {
  }

  lemma {:induction false} NothingFilled(t: Template)
    ensures Filled(t, []) == t
  {
    if t.More? { NothingFilled(t.rest); }
  }

  lemma JoinedPlain(
    p: string, q: string, a: string, n: string, l: string, b: string, z: string, c: string, r: string, d: string)
    requires 'Y' !in p && 'Y' !in q && 'Y' !in a && 'Y' !in n && 'Y' !in l && 'Y' !in b
    requires 'Y' !in z && 'Y' !in c && 'Y' !in r && 'Y' !in d
    ensures HoldsNone(Placeholder, p + q + a + n + l + b + z + c + r + n + d)
  {
    NoYNoPlaceholder(p + q + a + n + l + b + z + c + r + n + d);
  }

  lemma RowTailPlain(i: nat)
    ensures HoldsNone(Placeholder, RowTail(i))
  {
    JoinedPlain("  host_config_id: 1\n", "  walle_location:\n", "    body: ", Numeral(i + 1), "\n",
                "    data_center: '", Zone(i), "'\n", "    rack: '", "'");
  }

  lemma {:induction false} RowsWellFormed(i: nat, n: nat, after: string)
    requires i <= n && HoldsNone(Placeholder, after)
    ensures Delimited(Placeholder, RowsTemplate(i, n, after)) && Plain(Placeholder, RowsTemplate(i, n, after))
    ensures forall k: nat :: k in Slots(RowsTemplate(i, n, after)) <==> i <= k < n
    decreases n - i
  {
    if i < n {
      RowsWellFormed(i + 1, n, after);
      SlotsThree("- host:", i, RowTail(i), RowsTemplate(i + 1, n, after));
      RowTailPlain(i);
      NoYNoPlaceholder("- host:");
      NotInPlaceholders(' ');
      NotInPlaceholders('\n');
    }
  }

  lemma DocumentWellFormed(before: string, n: nat, after: string)
    requires HoldsNone(Placeholder, before) && HoldsNone(Placeholder, after)
    ensures var t := DocumentTemplate(before, n, after);
            && Delimited(Placeholder, t) && Plain(Placeholder, t)
            && forall k: nat :: k in Slots(t) <==> k < n
  {
    RowsWellFormed(0, n, after);
    NotInPlaceholders('\n');
    var heading := before + "hosts:";
    assert heading == before + ['h'] + "osts:";
    NotInPlaceholders('h');
    NoYNoPlaceholder("osts:");
    forall k: nat
      ensures !Occurs(heading, Placeholder(k))
    {
      OccursSplit(before, 'h', "osts:", Placeholder(k));
    }
  }

  // ---- what the agent writes ----

  /** What comes out of the loop on a rendered document. */
  ghost function Written(before: string, hostCount: int, hosts: seq<string>, after: string): string {
    PlaceholdersAreKeys();
    SubstituteFrom(Placeholder, Document(before, RowCount(hostCount), [], after), hosts, 0)
  }

  ghost predicate HoldsNoHost(s: string, hosts: seq<string>) {
    HoldsNoneOf(Placeholder, s, hosts)
  }

  /** Row `i` reads exactly host `i`, and no placeholder of the list remains, exactly when no
      host that has a row holds a placeholder of the list. The text around the hosts section
      must hold no placeholder. */
  lemma WrittenExact(before: string, hostCount: int, hosts: seq<string>, after: string)
    requires HoldsNone(Placeholder, before) && HoldsNone(Placeholder, after)
    ensures var n, out := RowCount(hostCount), Written(before, hostCount, hosts, after);
            out == Document(before, n, hosts, after) && HoldsNoHost(out, hosts) <==>
            forall i: nat :: i < n && i < |hosts| ==> HoldsNoHost(hosts[i], hosts)
  {
    var n := RowCount(hostCount);
    var t := DocumentTemplate(before, n, after);
    PlaceholdersAreKeys();
    RenderedTemplate(before, n, after);
    DocumentWellFormed(before, n, after);
    SubstituteExact(Placeholder, t, hosts);
    SimultaneousFills(Placeholder, t, hosts);
    DocumentBody(before, n, hosts, after);
  }

  lemma RenderedTemplate(before: string, n: nat, after: string)
    ensures Document(before, n, [], after) == Body(Placeholder, DocumentTemplate(before, n, after))
  {
    DocumentBody(before, n, [], after);
    NothingFilled(DocumentTemplate(before, n, after));
  }

  /** The loop does what one simultaneous substitution does, for hosts without placeholders. */
  lemma WrittenIsSimultaneous(before: string, hostCount: int, hosts: seq<string>, after: string)
    requires HoldsNone(Placeholder, before) && HoldsNone(Placeholder, after)
    requires forall i :: 0 <= i < |hosts| ==> HoldsNone(Placeholder, hosts[i])
    ensures Keys(Placeholder)
    ensures Written(before, hostCount, hosts, after) ==
              Simultaneous(Placeholder, Document(before, RowCount(hostCount), [], after), hosts)
  {
    var n := RowCount(hostCount);
    PlaceholdersAreKeys();
    RenderedTemplate(before, n, after);
    DocumentWellFormed(before, n, after);
    SubstituteExact(Placeholder, DocumentTemplate(before, n, after), hosts);
  }

  /** No placeholder remains at all exactly when there is a host for every row. */
  lemma NoneRemainsExact(before: string, hostCount: int, hosts: seq<string>, after: string)
    requires HoldsNone(Placeholder, before) && HoldsNone(Placeholder, after)
    requires forall i :: 0 <= i < |hosts| ==> HoldsNone(Placeholder, hosts[i])
    ensures HoldsNone(Placeholder, Written(before, hostCount, hosts, after)) <==> RowCount(hostCount) <= |hosts|
  {
    var n := RowCount(hostCount);
    var t := DocumentTemplate(before, n, after);
    PlaceholdersAreKeys();
    RenderedTemplate(before, n, after);
    DocumentWellFormed(before, n, after);
    forall j: nat
      ensures Occurs(Written(before, hostCount, hosts, after), Placeholder(j)) <==> |hosts| <= j < n
    {
      Remaining(Placeholder, t, hosts, j);
    }
    assert |hosts| < n ==> Occurs(Written(before, hostCount, hosts, after), Placeholder(|hosts|));
  }

  /** A host that is itself a later placeholder is replaced again: row 0 then reads host 1. */
  lemma LaterHostClobbers(before: string, after: string, host: string)
    requires HoldsNone(Placeholder, before) && HoldsNone(Placeholder, after) && HoldsNone(Placeholder, host)
    ensures Written(before, 2, [Placeholder(1), host], after) == Document(before, 2, [host, host], after)
  {
    var hosts := [Placeholder(1), host];
    var t := DocumentTemplate(before, 2, after);
    PlaceholdersAreKeys();
    RenderedTemplate(before, 2, after);
    DocumentWellFormed(before, 2, after);
    SubstituteSettles(Placeholder, t, hosts);
    SlotReached(Placeholder, 0, hosts, 0);
    SlotReached(Placeholder, 1, hosts, 0);
    SlotReached(Placeholder, 1, hosts, 1);
    NothingToSubstitute(Placeholder, host, hosts, 2);
    SameSettled(Placeholder, t, hosts, [host, host]);
    DocumentBody(before, 2, [host, host], after);
  }

  // ---- edited bodies ----

  /** A host without underscores that has some character no placeholder has, such as a dot or
      a lower-case letter. */
  ghost predicate PlainHost(h: string) {
    '_' !in h && exists c :: c in h && Delimits(Placeholder, c)
  }

  lemma Underscores(k: nat)
    ensures var p := Placeholder(k); p != [] && p[0] == '_' && p[|p| - 1] == '_'
  {
    PlaceholderAt(k, 0);
    PlaceholderAt(k, |Placeholder(k)| - 1);
  }

  lemma PlainIsSolid(h: string)
    requires PlainHost(h)
    ensures Solid(Placeholder, h)
  {
    forall a: string, b: string, k: nat, o: nat | OccursAt(a + h + b, Placeholder(k), o)
      ensures o + |Placeholder(k)| <= |a| || o >= |a| + |h|
    {
      NotInside(a, h, b, k, o);
    }
  }

  lemma HostCharacters(a: string, h: string, b: string)
    ensures forall j :: |a| <= j < |a| + |h| ==> (a + h + b)[j] in h
  {
    forall j | |a| <= j < |a| + |h|
      ensures (a + h + b)[j] in h
    {
      assert (a + h + b)[j] == h[j - |a|];
    }
  }

  lemma CoveredCharacter(s: string, p: string, o: nat, m: nat)
    requires OccursAt(s, p, o)
    ensures o <= m < o + |p| ==> s[m] in p
  {
    if o <= m < o + |p| { CharacterInside(s, p, o, m); }
  }

  lemma NotInside(a: string, h: string, b: string, k: nat, o: nat)
    requires PlainHost(h) && OccursAt(a + h + b, Placeholder(k), o)
    ensures o + |Placeholder(k)| <= |a| || o >= |a| + |h|
  {
    var s, p := a + h + b, Placeholder(k);
    var c :| c in h && Delimits(Placeholder, c);
    var i :| 0 <= i < |h| && h[i] == c;
    assert s[|a| + i] == c;
    Underscores(k);
    CharacterAt(s, p, o, 0);
    CharacterAt(s, p, o, |p| - 1);
    CoveredCharacter(s, p, o, |a| + i);
    HostCharacters(a, h, b);
  }

  lemma PlainStartsFresh(hosts: seq<string>)
    requires forall i :: 0 <= i < |hosts| ==> PlainHost(hosts[i])
    requires Keys(Placeholder)
    ensures FreshStarts(Placeholder, hosts)
  {
    forall i, k: nat | 0 <= i < |hosts|
      ensures hosts[i] != [] && hosts[i][0] != Placeholder(k)[0]
    {
      PlaceholderAt(k, 0);
    }
  }

  /** In every body, edited by hand or not, the loop does what one simultaneous pass does,
      exactly when taking the placeholders by number and in the order of the text chooses the
      same ones, for hosts as they are: names with a lower-case letter or addresses with a dot,
      and no underscore. */
  lemma EditedBody(body: string, hosts: seq<string>)
    requires forall i :: 0 <= i < |hosts| ==> PlainHost(hosts[i])
    ensures Keys(Placeholder)
    ensures SubstituteFrom(Placeholder, body, hosts, 0) == Simultaneous(Placeholder, body, hosts) <==>
              SameChoice(Placeholder, body, |hosts|)
    ensures Apart(Placeholder, body, |hosts|) ==> SameChoice(Placeholder, body, |hosts|)
  {
    PlaceholdersAreKeys();
    forall i | 0 <= i < |hosts|
      ensures Solid(Placeholder, hosts[i])
    {
      PlainIsSolid(hosts[i]);
    }
    PlainStartsFresh(hosts);
    SubstituteChosen(Placeholder, body, hosts);
    if Apart(Placeholder, body, |hosts|) {
      ApartIsSame(Placeholder, body, |hosts|);
    }
  }

  lemma OneAndZero()
    ensures Placeholder(0) == "__YDB_HOST_0__" && Placeholder(1) == "__YDB_HOST_1__"
  {
    assert Numeral(0) == "0" && Numeral(1) == "1";
  }

  const GLUED := "__YDB_HOST_1__YDB_HOST_0__"
  const TAKEN_APART := "__YDB_HOST_1a"

  lemma ZeroFirst()
    ensures ReplaceAll(GLUED, Placeholder(0), "a") == TAKEN_APART
  {
    OneAndZero();
    var first := "__YDB_HOST_1";
    assert GLUED == first + Placeholder(0) + "";
    forall o: nat | o < |first|
      ensures !OccursAt(GLUED, Placeholder(0), o)
    {
      if OccursAt(GLUED, Placeholder(0), o) {
        OccurrenceHasY(GLUED, 0, o);
        CharacterAt(GLUED, Placeholder(0), o, 11);
      }
    }
    ReplaceFirst(first, Placeholder(0), "", "a");
  }

  lemma CharacterAt(s: string, p: string, o: nat, k: nat)
    requires OccursAt(s, p, o) && k < |p|
    ensures s[o + k] == p[k]
  {
    assert s[o..o + |p|][k] == s[o + k];
  }

  lemma OneIsGone()
    ensures ReplaceAll(TAKEN_APART, Placeholder(1), "b") == TAKEN_APART
  {
    OneAndZero();
    assert |TAKEN_APART| < |Placeholder(1)|;
    ReplaceNone(TAKEN_APART, Placeholder(1), "b");
  }

  lemma OneInOnePass()
    ensures Keys(Placeholder) && Simultaneous(Placeholder, GLUED, ["a", "b"]) != TAKEN_APART
  {
    PlaceholdersAreKeys();
    OneAndZero();
    assert GLUED[..14] == Placeholder(1);
    assert HostAtStart(Placeholder, GLUED, ["a", "b"], 1);
    AtStart(Placeholder, GLUED, 1, ["a", "b"]);
    assert Simultaneous(Placeholder, GLUED, ["a", "b"])[0] == 'b';
  }

  /** Why placeholders must stand by themselves: two that share their underscores are taken
      apart in list order by the loop, and in reading order by a single pass. */
  lemma GluedPlaceholders()
    ensures Keys(Placeholder)
    ensures SubstituteFrom(Placeholder, GLUED, ["a", "b"], 0) == TAKEN_APART
    ensures Simultaneous(Placeholder, GLUED, ["a", "b"]) != TAKEN_APART
  {
    PlaceholdersAreKeys();
    ZeroFirst();
    OneIsGone();
    OneInOnePass();
    SubstituteTwo(Placeholder, GLUED, "a", "b");
  }

  lemma SubstituteTwo(key: nat -> string, s: string, g: string, h: string)
    requires Keys(key)
    ensures SubstituteFrom(key, s, [g, h], 0) == ReplaceAll(ReplaceAll(s, key(0), g), key(1), h)
  {
    var hosts := [g, h];
    var once := ReplaceAll(s, key(0), hosts[0]);
    var twice := ReplaceAll(once, key(1), hosts[1]);
    assert SubstituteFrom(key, twice, hosts, 2) == twice;
    assert SubstituteFrom(key, once, hosts, 1) == twice;
  }
}
