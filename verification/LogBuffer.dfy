/** The agent's run-length log buffer: internal/domain/agent/agent_server.go. */
module LogBuffer {
  import opened Decimal

  datatype Input = Input(commandID: string, action: string, line: string, stream: string)

  /** A buffered line is a line as it came, or a marker for `count` repeats of the line before. */
  datatype Text = Verbatim(line: string) | Repeated(count: nat, line: string)

  datatype LogLine = LogLine(commandID: string, machineID: string, action: string, text: Text, stream: string)

  datatype LogState = LogState(
    buf: seq<LogLine>,
    lastLine: string,
    lastAction: string,
    lastCmdID: string,
    repeatCnt: nat)

  const INITIAL: LogState := LogState([], "", "", "", 0)

  // ---- the two operations ----

  /** The marker for the repeats counted so far, if any. */
  function Pending(s: LogState, machineID: string, stream: string): seq<LogLine> {
    if s.repeatCnt > 0
    then [LogLine(s.lastCmdID, machineID, s.lastAction, Repeated(s.repeatCnt, s.lastLine), stream)]
    else []
  }

  function Buffered(s: LogState, machineID: string, x: Input): LogState {
    if x.line == s.lastLine && x.action == s.lastAction then s.(repeatCnt := s.repeatCnt + 1)
    else LogState(s.buf + Pending(s, machineID, x.stream)
                  + [LogLine(x.commandID, machineID, x.action, Verbatim(x.line), x.stream)],
                  x.line, x.action, x.commandID, 0)
  }

  function Batch(s: LogState, machineID: string): seq<LogLine> {
    s.buf + Pending(s, machineID, "stdout")
  }

  function Flushed(s: LogState): LogState {
    s.(buf := [], repeatCnt := 0)
  }

  class AgentLog {
    const machineID: string
    var logBuf: seq<LogLine>
    var lastLine: string
    var repeatCnt: nat
    var lastAction: string
    var lastCmdID: string

    constructor (machineID: string)
      ensures this.machineID == machineID && View() == INITIAL
    {
      this.machineID := machineID;
      logBuf, lastLine, repeatCnt, lastAction, lastCmdID := [], "", 0, "", "";
    }

    ghost function View(): LogState
      reads this
    {
      LogState(logBuf, lastLine, lastAction, lastCmdID, repeatCnt)
    }

    method BufferLogLine(commandID: string, action: string, line: string, stream: string)
      modifies this
      ensures View() == Buffered(old(View()), machineID, Input(commandID, action, line, stream))
    {
      if line == lastLine && action == lastAction {
        repeatCnt := repeatCnt + 1;
        return;
      }
      if repeatCnt > 0 {
        logBuf := logBuf + [LogLine(lastCmdID, machineID, lastAction, Repeated(repeatCnt, lastLine), stream)];
      }
      lastLine := line;
      lastAction := action;
      lastCmdID := commandID;
      repeatCnt := 0;
      logBuf := logBuf + [LogLine(commandID, machineID, action, Verbatim(line), stream)];
    }

    /** The part of flushLogs under the lock: cuts the batch to send. */
    method FlushLogs() returns (batch: seq<LogLine>)
      modifies this
      ensures View() == Flushed(old(View())) && batch == Batch(old(View()), machineID)
    {
      if |logBuf| == 0 && repeatCnt == 0 {
        return [];
      }
      if repeatCnt > 0 {
        logBuf := logBuf + [LogLine(lastCmdID, machineID, lastAction, Repeated(repeatCnt, lastLine), "stdout")];
        repeatCnt := 0;
      }
      batch := logBuf;
      logBuf := [];
    }
  }

  // ---- losslessness ----

  datatype Event = Line(x: Input) | Flush

  function After(machineID: string, events: seq<Event>): LogState {
    if events == [] then INITIAL
    else
      var s := After(machineID, events[..|events| - 1]);
      match events[|events| - 1]
      case Line(x) => Buffered(s, machineID, x)
      case Flush => Flushed(s)
  }

  /** All batches cut so far, one after the other. */
  function Sent(machineID: string, events: seq<Event>): seq<LogLine> {
    if events == [] then []
    else
      var init := events[..|events| - 1];
      Sent(machineID, init) + if events[|events| - 1].Flush? then Batch(After(machineID, init), machineID) else []
  }

  type Pair = (string, string)

  /** What came in: action and line, in order. */
  function Inputs(events: seq<Event>): seq<Pair> {
    if events == [] then []
    else
      Inputs(events[..|events| - 1]) + match events[|events| - 1] case Line(x) => [(x.action, x.line)] case Flush => []
  }

  function Copies(n: nat, p: Pair): seq<Pair> {
    seq(n, i => p)
  }

  function ExpandOne(l: LogLine): seq<Pair> {
    match l.text
    case Verbatim(line) => [(l.action, line)]
    case Repeated(n, line) => Copies(n, (l.action, line))
  }

  function Expand(lines: seq<LogLine>): seq<Pair> {
    if lines == [] then [] else Expand(lines[..|lines| - 1]) + ExpandOne(lines[|lines| - 1])
  }

  lemma {:induction false} ExpandConcat(a: seq<LogLine>, b: seq<LogLine>)
    ensures Expand(a + b) == Expand(a) + Expand(b)
  {
    if b == [] {
      assert a + b == a;
    } else {
      assert (a + b)[..|a + b| - 1] == a + b[..|b| - 1];
      ExpandConcat(a, b[..|b| - 1]);
    }
  }

  lemma ExpandOneLine(l: LogLine)
    ensures Expand([l]) == ExpandOne(l)
  {
    assert [l][..0] == [];
  }

  lemma PendingExpands(s: LogState, machineID: string, stream: string)
    ensures Expand(Pending(s, machineID, stream)) == Copies(s.repeatCnt, (s.lastAction, s.lastLine))
  {
    if s.repeatCnt > 0 {
      ExpandOneLine(Pending(s, machineID, stream)[0]);
    }
  }

  /** What a state still owes: the buffer and the repeats not written yet. */
  function Owed(s: LogState): seq<Pair> {
    Expand(s.buf) + Copies(s.repeatCnt, (s.lastAction, s.lastLine))
  }

  lemma LineOwed(s: LogState, machineID: string, x: Input)
    ensures Owed(Buffered(s, machineID, x)) == Owed(s) + [(x.action, x.line)]
  {
    if x.line == s.lastLine && x.action == s.lastAction {
      assert Copies(s.repeatCnt + 1, (x.action, x.line)) ==
          Copies(s.repeatCnt, (x.action, x.line)) + [(x.action, x.line)];
    } else {
      var l := LogLine(x.commandID, machineID, x.action, Verbatim(x.line), x.stream);
      var p := Pending(s, machineID, x.stream);
      PendingExpands(s, machineID, x.stream);
      ExpandConcat(s.buf, p);
      ExpandConcat(s.buf + p, [l]);
      ExpandOneLine(l);
      assert Copies(0, (x.action, x.line)) == [];
    }
  }

  lemma BatchOwed(s: LogState, machineID: string)
    ensures Expand(Batch(s, machineID)) == Owed(s) && Owed(Flushed(s)) == []
  {
    PendingExpands(s, machineID, "stdout");
    ExpandConcat(s.buf, Pending(s, machineID, "stdout"));
  }

  /** For every interleaving of lines and flushes: what was sent, then what is buffered, then
      the pending repeats, expand to exactly the lines that came in, in order. */
  lemma {:induction false} Lossless(machineID: string, events: seq<Event>)
    ensures Expand(Sent(machineID, events)) + Owed(After(machineID, events)) == Inputs(events)
  {
    if events != [] {
      var init := events[..|events| - 1];
      Lossless(machineID, init);
      var s := After(machineID, init);
      match events[|events| - 1]
      case Line(x) =>
        LineOwed(s, machineID, x);
        assert Sent(machineID, init) + [] == Sent(machineID, init);
      case Flush =>
        BatchOwed(s, machineID);
        ExpandConcat(Sent(machineID, init), Batch(s, machineID));
        assert Inputs(init) + [] == Inputs(init);
    }
  }

  /** After a final flush nothing is owed: the batches alone carry everything. */
  lemma FinalFlush(machineID: string, events: seq<Event>)
    ensures Expand(Sent(machineID, events + [Flush])) == Inputs(events)
  {
    var all := events + [Flush];
    assert all[..|all| - 1] == events;
    Lossless(machineID, all);
    BatchOwed(After(machineID, events), machineID);
    assert all[|all| - 1] == Flush;
    assert After(machineID, all) == Flushed(After(machineID, events));
    assert Expand(Sent(machineID, all)) + [] == Expand(Sent(machineID, all));
    assert Inputs(all) == Inputs(events) + [] == Inputs(events);
  }

  // ---- whose lines they are ----

  /** What came in last, as far as repeats are concerned. */
  function LastInput(events: seq<Event>): Pair {
    if Inputs(events) == [] then ("", "") else Inputs(events)[|Inputs(events)| - 1]
  }

  /** The entries as they should be: each line that differs from the one before it, in action
      or text, with everything it came with. */
  function Changes(machineID: string, events: seq<Event>): seq<LogLine> {
    if events == [] then []
    else
      var init := events[..|events| - 1];
      Changes(machineID, init) + match events[|events| - 1]
        case Flush => []
        case Line(x) =>
          if (x.action, x.line) == LastInput(init) then []
          else [LogLine(x.commandID, machineID, x.action, Verbatim(x.line), x.stream)]
  }

  function Verbatims(lines: seq<LogLine>): seq<LogLine> {
    if lines == [] then []
    else Verbatims(lines[..|lines| - 1]) + if lines[|lines| - 1].text.Verbatim? then [lines[|lines| - 1]] else []
  }

  lemma {:induction false} VerbatimsConcat(a: seq<LogLine>, b: seq<LogLine>)
    ensures Verbatims(a + b) == Verbatims(a) + Verbatims(b)
  {
    if b == [] {
      assert a + b == a;
    } else {
      assert (a + b)[..|a + b| - 1] == a + b[..|b| - 1];
      VerbatimsConcat(a, b[..|b| - 1]);
    }
  }

  lemma VerbatimsOne(l: LogLine)
    ensures Verbatims([l]) == if l.text.Verbatim? then [l] else []
  {
    assert [l][..0] == [];
  }

  lemma PendingVerbatims(s: LogState, machineID: string, stream: string)
    ensures Verbatims(Pending(s, machineID, stream)) == []
  {
    if s.repeatCnt > 0 { VerbatimsOne(Pending(s, machineID, stream)[0]); }
  }

  /** Everything there is: what was sent, and what is in the buffer. */
  function Entries(machineID: string, events: seq<Event>): seq<LogLine> {
    Sent(machineID, events) + After(machineID, events).buf
  }

  /** The entries one event adds, at the end. */
  function Added(machineID: string, s: LogState, e: Event): seq<LogLine> {
    match e
    case Flush => Pending(s, machineID, "stdout")
    case Line(x) =>
      if x.line == s.lastLine && x.action == s.lastAction then []
      else Pending(s, machineID, x.stream) + [LogLine(x.commandID, machineID, x.action, Verbatim(x.line), x.stream)]
  }

  lemma EntriesStep(machineID: string, events: seq<Event>, e: Event)
    ensures Entries(machineID, events + [e]) ==
              Entries(machineID, events) + Added(machineID, After(machineID, events), e)
  {
    var all, s := events + [e], After(machineID, events);
    assert all[..|all| - 1] == events;
    var sent := Sent(machineID, events);
    match e
    case Flush =>
      assert sent + (s.buf + Pending(s, machineID, "stdout")) + [] ==
          sent + s.buf + Pending(s, machineID, "stdout");
    case Line(x) =>
      assert sent + [] == sent;
      assert s.buf + [] == s.buf;
  }

  lemma InputsStep(events: seq<Event>, e: Event)
    ensures Inputs(events + [e]) == Inputs(events) + match e case Line(x) => [(x.action, x.line)] case Flush => []
  {
    assert (events + [e])[..|events|] == events;
  }

  lemma ChangesStep(machineID: string, events: seq<Event>, e: Event)
    ensures Changes(machineID, events + [e]) == Changes(machineID, events) + match e
              case Flush => []
              case Line(x) =>
                if (x.action, x.line) == LastInput(events) then []
                else [LogLine(x.commandID, machineID, x.action, Verbatim(x.line), x.stream)]
  {
    assert (events + [e])[..|events|] == events;
  }

  lemma {:induction false} LastSeen(machineID: string, events: seq<Event>)
    ensures (After(machineID, events).lastAction, After(machineID, events).lastLine) == LastInput(events)
  {
    if events != [] {
      var init, last := events[..|events| - 1], events[|events| - 1];
      assert events == init + [last];
      LastSeen(machineID, init);
      InputsStep(init, last);
    }
  }

  /** The entries that are no markers are exactly the lines that differ from the one before,
      each with the command id, machine, action and stream it came with, in order. */
  lemma {:induction false} EntriesExact(machineID: string, events: seq<Event>)
    ensures Verbatims(Entries(machineID, events)) == Changes(machineID, events)
  {
    if events != [] {
      var init, last := events[..|events| - 1], events[|events| - 1];
      assert events == init + [last];
      EntriesExact(machineID, init);
      LastSeen(machineID, init);
      EntriesStep(machineID, init, last);
      ChangesStep(machineID, init, last);
      var s := After(machineID, init);
      VerbatimsConcat(Entries(machineID, init), Added(machineID, s, last));
      AddedVerbatims(machineID, s, last);
    }
  }

  lemma AddedVerbatims(machineID: string, s: LogState, e: Event)
    ensures Verbatims(Added(machineID, s, e)) == match e
              case Flush => []
              case Line(x) =>
                if (x.action, x.line) == (s.lastAction, s.lastLine) then []
                else [LogLine(x.commandID, machineID, x.action, Verbatim(x.line), x.stream)]
  {
    match e
    case Flush => PendingVerbatims(s, machineID, "stdout");
    case Line(x) =>
      var l := LogLine(x.commandID, machineID, x.action, Verbatim(x.line), x.stream);
      PendingVerbatims(s, machineID, x.stream);
      VerbatimsOne(l);
      VerbatimsConcat(Pending(s, machineID, x.stream), [l]);
  }

  /** The line a marker after these entries is about. */
  function Repeatable(lines: seq<LogLine>): LogLine {
    if Verbatims(lines) == [] then LogLine("", "", "", Verbatim(""), "")
    else Verbatims(lines)[|Verbatims(lines)| - 1]
  }

  /** A marker names the command, the action and the text of the last entry before it that is a
      line, and says at least one repeat. */
  ghost predicate MarkerOk(machineID: string, lines: seq<LogLine>, j: nat)
    requires j < |lines|
  {
    lines[j].text.Repeated? ==>
      var l := Repeatable(lines[..j]);
      && lines[j].machineID == machineID && lines[j].commandID == l.commandID && lines[j].action == l.action
      && l.text == Verbatim(lines[j].text.line) && lines[j].text.count > 0
  }

  lemma {:induction false} VerbatimsAre(lines: seq<LogLine>)
    ensures forall l :: l in Verbatims(lines) ==> l.text.Verbatim?
  {
    if lines != [] { VerbatimsAre(lines[..|lines| - 1]); }
  }

  lemma {:induction false} RepeatableSeen(machineID: string, events: seq<Event>)
    ensures var s, l := After(machineID, events), Repeatable(Entries(machineID, events));
            l.commandID == s.lastCmdID && l.action == s.lastAction && l.text == Verbatim(s.lastLine)
  {
    if events != [] {
      var init, last := events[..|events| - 1], events[|events| - 1];
      assert events == init + [last];
      RepeatableSeen(machineID, init);
      EntriesStep(machineID, init, last);
      VerbatimsConcat(Entries(machineID, init), Added(machineID, After(machineID, init), last));
      AddedVerbatims(machineID, After(machineID, init), last);
    }
  }

  /** Every marker is about the line it follows. */
  lemma {:induction false} MarkersExact(machineID: string, events: seq<Event>, j: nat)
    requires j < |Entries(machineID, events)|
    ensures MarkerOk(machineID, Entries(machineID, events), j)
  {
    if events != [] {
      var init, last := events[..|events| - 1], events[|events| - 1];
      assert events == init + [last];
      var before, after := Entries(machineID, init), Entries(machineID, events);
      EntriesStep(machineID, init, last);
      if j < |before| {
        MarkersExact(machineID, init, j);
        assert after[..j] == before[..j] && after[j] == before[j];
      } else {
        RepeatableSeen(machineID, init);
        if j == |before| { assert after[..j] == before; }
      }
    }
  }

  /** A marker in the buffer stands before the line that ended the repeats, with that line's
      stream; one added by a flush is the last of its batch, with stream `stdout`. */
  lemma {:induction false} MarkerStreams(machineID: string, events: seq<Event>, j: nat)
    requires j < |After(machineID, events).buf| && After(machineID, events).buf[j].text.Repeated?
    ensures var buf := After(machineID, events).buf;
            j + 1 < |buf| && buf[j + 1].text.Verbatim? && buf[j].stream == buf[j + 1].stream
    ensures var s := After(machineID, events);
            Batch(s, machineID)[..|s.buf|] == s.buf
            && |Batch(s, machineID)| == |s.buf| + (if s.repeatCnt > 0 then 1 else 0)
            && (s.repeatCnt > 0 ==> Batch(s, machineID)[|s.buf|].stream == "stdout")
  {
    var init, last := events[..|events| - 1], events[|events| - 1];
    var before := After(machineID, init).buf;
    if j < |before| && last.Line? {
      MarkerStreams(machineID, init, j);
    }
  }

  // ---- the text on the wire ----

  const OPEN := "[repeated "
  const CLOSE := " times] "

  /** `[repeated %d times] ` */
  function Marker(n: nat): string {
    OPEN + Numeral(n) + CLOSE
  }

  function Render(t: Text): string {
    match t
    case Verbatim(line) => line
    case Repeated(n, line) => Marker(n) + line
  }

  /** A line that could be taken for a marker. */
  ghost predicate Confusable(line: string) {
    exists n: nat, rest: string :: n > 0 && line == Marker(n) + rest
  }

  /** Reading the text back. */
  ghost function Parse(s: string): Text {
    if Confusable(s) then
      var n: nat, rest: string :| n > 0 && s == Marker(n) + rest;
      Repeated(n, rest)
    else Verbatim(s)
  }

  lemma InnerPart(open: string, n: string, close: string, a: string)
    ensures (open + n + close + a)[|open|..] == n + (close + a) && (close + a)[|close|..] == a
  {
  }

  lemma MarkerInjective(m: nat, a: string, n: nat, b: string)
    requires Marker(m) + a == Marker(n) + b
    ensures m == n && a == b
  {
    InnerPart(OPEN, Numeral(m), CLOSE, a);
    InnerPart(OPEN, Numeral(n), CLOSE, b);
    NumeralDelimited(m, CLOSE + a, n, CLOSE + b);
  }

  lemma ParseRender(t: Text)
    requires t.Repeated? ==> t.count > 0
    ensures Parse(Render(t)) == t <==> t.Repeated? || !Confusable(t.line)
  {
    var s := Render(t);
    if t.Repeated? {
      assert Confusable(s);
      var n: nat, rest: string :| n > 0 && s == Marker(n) + rest && Parse(s) == Repeated(n, rest);
      MarkerInjective(n, rest, t.count, t.line);
    }
  }

  function Wire(lines: seq<LogLine>): seq<Pair> {
    seq(|lines|, i requires 0 <= i < |lines| => (lines[i].action, Render(lines[i].text)))
  }

  /** What a reader of the wire reconstructs. */
  ghost function ReadBack(wire: seq<Pair>): seq<Pair> {
    if wire == [] then []
    else
      var (action, s) := wire[|wire| - 1];
      ReadBack(wire[..|wire| - 1]) + ExpandOne(LogLine("", "", action, Parse(s), ""))
  }

  ghost predicate Clean(lines: seq<LogLine>) {
    forall l :: l in lines ==> if l.text.Repeated? then l.text.count > 0 else !Confusable(l.text.line)
  }

  lemma {:induction false} ReadBackWire(lines: seq<LogLine>)
    requires Clean(lines)
    ensures ReadBack(Wire(lines)) == Expand(lines)
  {
    if lines != [] {
      var k := |lines| - 1;
      assert lines[k] in lines;
      ReadBackWire(lines[..k]);
      assert Wire(lines)[..k] == Wire(lines[..k]);
      ParseRender(lines[k].text);
    }
  }

  ghost predicate NoMarkers(events: seq<Event>) {
    forall e :: e in events && e.Line? ==> !Confusable(e.x.line)
  }

  lemma {:induction false} SentClean(machineID: string, events: seq<Event>)
    requires NoMarkers(events)
    ensures Clean(Sent(machineID, events)) && Clean(After(machineID, events).buf)
  {
    if events != [] {
      var init := events[..|events| - 1];
      assert events == init + [events[|events| - 1]];
      SentClean(machineID, init);
    }
  }

  // ---- exactly then ----

  lemma {:induction false} ReadBackConcat(a: seq<Pair>, b: seq<Pair>)
    ensures ReadBack(a + b) == ReadBack(a) + ReadBack(b)
  {
    if b == [] {
      assert a + b == a;
    } else {
      assert (a + b)[..|a + b| - 1] == a + b[..|b| - 1];
      ReadBackConcat(a, b[..|b| - 1]);
    }
  }

  ghost predicate Deceptive(l: LogLine) {
    l.text.Verbatim? && Confusable(l.text.line)
  }

  lemma {:induction false} SentCounts(machineID: string, events: seq<Event>)
    ensures forall l :: l in Sent(machineID, events) + After(machineID, events).buf ==>
              l.text.Repeated? ==> l.text.count > 0
  {
    if events != [] {
      SentCounts(machineID, events[..|events| - 1]);
    }
  }

  /** The first deceptive entry, if there is any. */
  lemma {:induction false} FirstDeceptive(lines: seq<LogLine>) returns (j: nat)
    requires forall l :: l in lines ==> l.text.Repeated? ==> l.text.count > 0
    requires exists l :: l in lines && Deceptive(l)
    ensures j < |lines| && Deceptive(lines[j]) && Clean(lines[..j])
  {
    var k := |lines| - 1;
    if exists l :: l in lines[..k] && Deceptive(l) {
      j := FirstDeceptive(lines[..k]);
      assert lines[..k][..j] == lines[..j];
    } else {
      j := k;
    }
  }

  /** A deceptive entry is read back as repeats of a shorter line. */
  lemma DeceptiveRead(l: LogLine)
    requires Deceptive(l)
    ensures var r := ReadBack([(l.action, Render(l.text))]); r != [] && r[0] != (l.action, l.text.line)
  {
    var s := l.text.line;
    assert [(l.action, s)][..0] == [];
    assert ReadBack([(l.action, s)]) == ExpandOne(LogLine("", "", l.action, Parse(s), ""));
    var t := Parse(s);
    assert t.Repeated? && t.count > 0 && s == Marker(t.count) + t.line;
  }

  lemma WireSplit(a: seq<LogLine>, l: LogLine, b: seq<LogLine>)
    ensures Wire(a + [l] + b) == Wire(a) + [(l.action, Render(l.text))] + Wire(b)
  {
  }

  lemma SamePosition(a: seq<Pair>, x: seq<Pair>, b: seq<Pair>, y: seq<Pair>, c: seq<Pair>)
    requires x != [] && y != [] && x[0] != y[0]
    ensures a + x + b != a + y + c
  {
    assert (a + x + b)[|a|] == x[0] && (a + y + c)[|a|] == y[0];
  }

  lemma DeceptiveMisread(lines: seq<LogLine>)
    requires forall l :: l in lines ==> l.text.Repeated? ==> l.text.count > 0
    requires exists l :: l in lines && Deceptive(l)
    ensures ReadBack(Wire(lines)) != Expand(lines)
  {
    var j := FirstDeceptive(lines);
    var a, l, b := lines[..j], lines[j], lines[j + 1..];
    assert lines == a + [l] + b;
    var wire := [(l.action, Render(l.text))];
    WireSplit(a, l, b);
    ReadBackConcat(Wire(a) + wire, Wire(b));
    ReadBackConcat(Wire(a), wire);
    ReadBackWire(a);
    ExpandConcat(a + [l], b);
    ExpandConcat(a, [l]);
    ExpandOneLine(l);
    DeceptiveRead(l);
    SamePosition(Expand(a), ReadBack(wire), ReadBack(Wire(b)), Expand([l]), Expand(b));
  }

  lemma {:induction false} LastLineSeen(machineID: string, events: seq<Event>)
    requires NoMarkers(events)
    ensures !Confusable(After(machineID, events).lastLine)
  {
    if events != [] {
      var init := events[..|events| - 1];
      assert events == init + [events[|events| - 1]];
      LastLineSeen(machineID, init);
    }
  }

  /** The first line that looks like a marker is sent as it is. */
  lemma {:induction false} MarkerSent(machineID: string, events: seq<Event>)
    requires !NoMarkers(events)
    ensures exists l :: l in Sent(machineID, events) + After(machineID, events).buf && Deceptive(l)
  {
    var init, last := events[..|events| - 1], events[|events| - 1];
    assert events == init + [last];
    if NoMarkers(init) {
      assert last.Line? && Confusable(last.x.line);
      LastLineSeen(machineID, init);
      var buf := After(machineID, events).buf;
      var l := buf[|buf| - 1];
      assert l in Sent(machineID, events) + buf && Deceptive(l);
    } else {
      MarkerSent(machineID, init);
      var l :| l in Sent(machineID, init) + After(machineID, init).buf && Deceptive(l);
      assert l in Sent(machineID, events) + After(machineID, events).buf;
    }
  }

  /** The text sent determines the lines that came in exactly when none of them looks like a
      marker. */
  lemma TextLossless(machineID: string, events: seq<Event>)
    ensures ReadBack(Wire(Sent(machineID, events + [Flush]))) == Inputs(events) <==> NoMarkers(events)
  {
    var all := events + [Flush];
    FinalFlush(machineID, events);
    if NoMarkers(events) {
      SentClean(machineID, all);
      ReadBackWire(Sent(machineID, all));
    } else {
      MarkerSent(machineID, events);
      SentCounts(machineID, all);
      assert all[..|all| - 1] == events;
      assert Sent(machineID, all) == Sent(machineID, events) + Batch(After(machineID, events), machineID);
      var l :| l in Sent(machineID, events) + After(machineID, events).buf && Deceptive(l);
      assert l in Sent(machineID, all);
      DeceptiveMisread(Sent(machineID, all));
    }
  }

  /** Events that put a marker for `n` repeats on the wire: honest repeats of `x`, or `x` and
      then a line that reads like the marker. An empty line with an empty action counts as a
      repeat from the start. */
  function Honest(x: Input, n: nat): seq<Event> {
    seq(if x.line == "" && x.action == "" then n else n + 1, i => Line(x))
  }

  function Claimed(x: Input, n: nat): seq<Event> {
    var marker := Line(x.(line := Marker(n) + x.line));
    if x.line == "" && x.action == "" then [marker] else [Line(x), marker]
  }

  /** Every line that looks like a marker can be confused: two different inputs put the same
      text on the wire. */
  lemma TextAmbiguous(machineID: string, x: Input, n: nat)
    requires n > 0
    ensures Inputs(Honest(x, n)) != Inputs(Claimed(x, n))
    ensures Wire(Sent(machineID, Honest(x, n) + [Flush])) == Wire(Sent(machineID, Claimed(x, n) + [Flush]))
  {
    FlushOnly(machineID, Honest(x, n));
    FlushOnly(machineID, Claimed(x, n));
    if x.line == "" && x.action == "" {
      EmptyRepeats(machineID, x, n);
      EmptyClaimed(machineID, x, n);
    } else {
      HonestWire(machineID, x, n);
      ClaimedWire(machineID, x, n);
    }
  }

  lemma HonestWire(machineID: string, x: Input, n: nat)
    requires n > 0 && (x.line != "" || x.action != "")
    ensures Wire(Batch(After(machineID, Honest(x, n)), machineID)) ==
        [(x.action, x.line), (x.action, Marker(n) + x.line)]
    ensures Inputs(Honest(x, n)) == Copies(n + 1, (x.action, x.line))
  {
    RepeatsState(machineID, x, n);
    RepeatsInputs(x, n + 1);
  }

  lemma ClaimedWire(machineID: string, x: Input, n: nat)
    requires n > 0 && (x.line != "" || x.action != "")
    ensures Wire(Batch(After(machineID, Claimed(x, n)), machineID)) ==
        [(x.action, x.line), (x.action, Marker(n) + x.line)]
    ensures |Inputs(Claimed(x, n))| == 2 && Inputs(Claimed(x, n))[1] != (x.action, x.line)
  {
    var marker := x.(line := Marker(n) + x.line);
    assert |marker.line| > |x.line|;
    FirstThenOther(machineID, x, marker);
    var both, one := [Line(x), Line(marker)], [Line(x)];
    assert both[..1] == one && one[..0] == [];
    assert Inputs(one) == [(x.action, x.line)];
  }

  lemma EmptyRepeats(machineID: string, x: Input, n: nat)
    requires n > 0 && x.line == "" && x.action == ""
    ensures Wire(Batch(After(machineID, Honest(x, n)), machineID)) == [("", Marker(n) + "")]
    ensures Inputs(Honest(x, n)) == Copies(n, ("", ""))
  {
    EmptyState(machineID, x, n);
    RepeatsInputs(x, n);
  }

  lemma {:induction false} EmptyState(machineID: string, x: Input, n: nat)
    requires x.line == "" && x.action == ""
    ensures After(machineID, seq(n, i => Line(x))) == INITIAL.(repeatCnt := n)
  {
    var events := seq(n, i => Line(x));
    if n > 0 {
      assert events[..n - 1] == seq(n - 1, i => Line(x));
      EmptyState(machineID, x, n - 1);
    }
  }

  lemma EmptyClaimed(machineID: string, x: Input, n: nat)
    requires n > 0 && x.line == "" && x.action == ""
    ensures Wire(Batch(After(machineID, Claimed(x, n)), machineID)) == [("", Marker(n) + "")]
    ensures |Inputs(Claimed(x, n))| == 1 && Inputs(Claimed(x, n))[0] != ("", "")
  {
    var events := Claimed(x, n);
    assert events[..0] == [];
    assert After(machineID, []) == INITIAL;
    assert Marker(n) + x.line != "";
    var s := After(machineID, events);
    assert s == Buffered(INITIAL, machineID, events[0].x);
    assert s.buf == [LogLine(x.commandID, machineID, "", Verbatim(Marker(n) + ""), x.stream)];
  }

  lemma FlushOnly(machineID: string, events: seq<Event>)
    requires forall e :: e in events ==> e.Line?
    ensures Sent(machineID, events + [Flush]) == Batch(After(machineID, events), machineID)
  {
    assert (events + [Flush])[..|events|] == events;
    NothingSent(machineID, events);
  }

  lemma {:induction false} NothingSent(machineID: string, events: seq<Event>)
    requires forall e :: e in events ==> e.Line?
    ensures Sent(machineID, events) == []
  {
    if events != [] {
      assert events[|events| - 1] in events;
      NothingSent(machineID, events[..|events| - 1]);
    }
  }

  lemma {:induction false} RepeatsState(machineID: string, x: Input, n: nat)
    requires x.line != "" || x.action != ""
    ensures After(machineID, seq(n + 1, i => Line(x))) ==
              LogState([LogLine(x.commandID, machineID, x.action, Verbatim(x.line), x.stream)], x.line, x.action,
                  x.commandID, n)
  {
    var events := seq(n + 1, i => Line(x));
    if n == 0 {
      assert events[..0] == [];
    } else {
      assert events[..n] == seq(n, i => Line(x));
      RepeatsState(machineID, x, n - 1);
    }
  }

  lemma {:induction false} RepeatsInputs(x: Input, n: nat)
    ensures Inputs(seq(n, i => Line(x))) == Copies(n, (x.action, x.line))
  {
    var events := seq(n, i => Line(x));
    if n > 0 {
      assert events[..n - 1] == seq(n - 1, i => Line(x));
      RepeatsInputs(x, n - 1);
    }
  }

  lemma FirstThenOther(machineID: string, x: Input, y: Input)
    requires (x.line != "" || x.action != "") && y.line != x.line
    ensures After(machineID, [Line(x), Line(y)]).buf ==
              [LogLine(x.commandID, machineID, x.action, Verbatim(x.line), x.stream),
               LogLine(y.commandID, machineID, y.action, Verbatim(y.line), y.stream)]
    ensures After(machineID, [Line(x), Line(y)]).repeatCnt == 0
  {
    var events := [Line(x), Line(y)];
    assert events[..1] == [Line(x)];
    var first := [Line(x)];
    assert first[..|first| - 1] == [] && first[|first| - 1] == Line(x);
    var s := After(machineID, first);
    assert After(machineID, []) == INITIAL;
    assert s == Buffered(INITIAL, machineID, x);
    assert s.buf == [LogLine(x.commandID, machineID, x.action, Verbatim(x.line), x.stream)];
    assert After(machineID, events) == Buffered(s, machineID, y);
  }
}
