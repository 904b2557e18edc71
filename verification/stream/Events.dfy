/** One block of an event stream: its fields, its event, and the writer on the other side. */
module EventBlocks {
  import opened Wrappers
  import opened Framing
  import Text

  datatype Kind =
    | RunStarted | ContextLoaded | IntentDetected | ClarificationRequired | AgentActionSelected
    | ToolStarted | ToolCompleted | RetrievalStarted | RetrievalCompleted | DiagnosisGenerated | ApprovalRequired
    | WritebackStarted | WritebackCompleted | RunCompleted | RunFailed

  function KindName(kind: Kind): string {
    match kind
    case RunStarted => "run_started"
    case ContextLoaded => "context_loaded"
    case IntentDetected => "intent_detected"
    case ClarificationRequired => "clarification_required"
    case AgentActionSelected => "agent_action_selected"
    case ToolStarted => "tool_started"
    case ToolCompleted => "tool_completed"
    case RetrievalStarted => "retrieval_started"
    case RetrievalCompleted => "retrieval_completed"
    case DiagnosisGenerated => "diagnosis_generated"
    case ApprovalRequired => "approval_required"
    case WritebackStarted => "writeback_started"
    case WritebackCompleted => "writeback_completed"
    case RunCompleted => "run_completed"
    case RunFailed => "run_failed"
  }

  predicate IsTerminal(kind: Kind) {
    kind.RunCompleted? || kind.RunFailed? || kind.WritebackCompleted?
  }

  // The remaining members of the JSON body are one value; its text comes from a codec.
  datatype RunEvent = RunEvent(id: nat, kind: Kind, body: nat)

  datatype Codec = Codec(encode: RunEvent -> string, decode: string -> Option<RunEvent>)

  const MAX_SAFE_INTEGER: nat := 9007199254740991

  predicate ValidEvent(e: RunEvent) {
    1 <= e.id <= MAX_SAFE_INTEGER
  }

  // --- Lines and fields ---

  function IndexOf(s: string, c: char): (i: nat)
    ensures i <= |s|
  {
    if s == [] || s[0] == c then 0 else 1 + IndexOf(s[1..], c)
  }

  lemma {:induction false} IndexOfIs(s: string, c: char, i: nat)
    requires i <= |s| && (i == |s| || s[i] == c) && forall k :: 0 <= k < i ==> s[k] != c
    ensures IndexOf(s, c) == i
  {
    if i > 0 {
      IndexOfIs(s[1..], c, i - 1);
    }
  }

  function DropReturn(s: string): string {
    if s != [] && s[|s| - 1] == '\r' then s[..|s| - 1] else s
  }

  /** A block split at line feeds, each with the carriage return before it. */
  function Lines(s: string): seq<string>
    decreases |s|
  {
    var i := IndexOf(s, '\n');
    if i == |s| then [s] else [DropReturn(s[..i])] + Lines(s[i + 1..])
  }

  predicate IsScriptSpace(c: char) {
    c in {' ', '\t', '\n', '\U{000B}', '\U{000C}', '\r', '\U{00A0}', '\U{FEFF}', '\U{1680}', '\U{2028}', '\U{2029}',
          '\U{202F}', '\U{205F}', '\U{3000}'}
    || '\U{2000}' <= c <= '\U{200A}'
  }

  function TrimStart(s: string): string {
    if s != [] && IsScriptSpace(s[0]) then TrimStart(s[1..]) else s
  }

  function DropOneBlank(s: string): string {
    if s != [] && s[0] == ' ' then s[1..] else s
  }

  datatype Fields = Fields(id: string, name: string, data: seq<string>, connected: bool)

  const NO_FIELDS: Fields := Fields("", "message", [], false)

  function ReadLine(f: Fields, line: string): Fields {
    if line != [] && line[0] == ':' then
      if "connected" <= TrimStart(line[1..]) then f.(connected := true) else f
    else
      var separator := IndexOf(line, ':');
      var field := line[..separator];
      var value := if separator == |line| then "" else DropOneBlank(line[separator + 1..]);
      if field == "id" then f.(id := value)
      else if field == "event" then f.(name := value)
      else if field == "data" then f.(data := f.data + [value])
      else f
  }

  function ReadLines(f: Fields, lines: seq<string>): Fields
    decreases |lines|
  {
    if lines == [] then f else ReadLines(ReadLine(f, lines[0]), lines[1..])
  }

  function Decimal(n: nat): (s: string)
    ensures s != [] && forall c :: c in s ==> '0' <= c <= '9'
  {
    var digit := ['0' + (n % 10) as char];
    if n < 10 then digit else Decimal(n / 10) + digit
  }

  // --- The meaning of a block ---

  datatype Outcome = Outcome(connected: bool, event: Option<RunEvent>, faulty: bool)

  /** Comments may confirm the connection; data must be a known event that agrees with the id and event fields. */
  function ParseBlock(block: string, codec: Codec): Outcome {
    var f := ReadLines(NO_FIELDS, Lines(block));
    if f.data == [] then Outcome(f.connected, None, false)
    else
      var e := codec.decode(Text.Join("\n", f.data));
      if e.None? || !ValidEvent(e.value) || (f.id != "" && f.id != Decimal(e.value.id))
         || f.name != KindName(e.value.kind)
      then Outcome(f.connected, None, true)
      else Outcome(f.connected, e, false)
  }

  // --- The writer ---

  predicate SingleLine(s: string) {
    '\n' !in s && '\r' !in s
  }

  ghost predicate Faithful(codec: Codec) {
    forall e: RunEvent :: SingleLine(codec.encode(e)) && codec.decode(codec.encode(e)) == Some(e)
  }

  function EventBlock(e: RunEvent, codec: Codec): string {
    ("id: " + Decimal(e.id)) + "\n" + (("event: " + KindName(e.kind)) + "\n" + ("data: " + codec.encode(e)))
  }

  function HelloBlock(stream: string): string {
    (": connected " + stream) + "\n" + RETRY
  }

  const RETRY: string := "retry: 3000"

  const HEARTBEAT: string := ": heartbeat"

  lemma FirstLine(a: string, rest: string)
    requires SingleLine(a)
    ensures Lines(a + "\n" + rest) == [a] + Lines(rest)
  {
    var s := a + "\n" + rest;
    assert forall k :: 0 <= k < |a| ==> a[k] in a;
    IndexOfIs(s, '\n', |a|);
    assert s[..|a|] == a && s[|a| + 1..] == rest;
  }

  lemma LastLine(a: string)
    requires SingleLine(a)
    ensures Lines(a) == [a]
  {
    assert forall k :: 0 <= k < |a| ==> a[k] in a;
    IndexOfIs(a, '\n', |a|);
  }

  lemma FieldLine(f: Fields, field: string, value: string)
    requires ':' !in field && field != ""
    ensures ReadLine(f, field + ": " + value) ==
            if field == "id" then f.(id := value) else if field == "event" then f.(name := value)
            else if field == "data" then f.(data := f.data + [value]) else f
  {
    var line := field + ": " + value;
    assert forall k :: 0 <= k < |field| ==> field[k] in field;
    IndexOfIs(line, ':', |field|);
    assert line[..|field|] == field && line[|field| + 1..] == " " + value;
    assert (" " + value)[1..] == value;
  }

  lemma EarlyKinds(kind: Kind)
    requires kind in {RunStarted, ContextLoaded, IntentDetected, ClarificationRequired, AgentActionSelected}
    ensures SingleLine(KindName(kind))
  {
  }

  lemma MiddleKinds(kind: Kind)
    requires kind in {ToolStarted, ToolCompleted, RetrievalStarted, RetrievalCompleted, DiagnosisGenerated}
    ensures SingleLine(KindName(kind))
  {
  }

  lemma LateKinds(kind: Kind)
    requires kind in {ApprovalRequired, WritebackStarted, WritebackCompleted, RunCompleted, RunFailed}
    ensures SingleLine(KindName(kind))
  {
  }

  lemma KindsAreSingleLines(kind: Kind)
    ensures SingleLine(KindName(kind))
  {
    hide KindName, SingleLine;
    if kind in {RunStarted, ContextLoaded, IntentDetected, ClarificationRequired, AgentActionSelected} {
      EarlyKinds(kind);
    } else if kind in {ToolStarted, ToolCompleted, RetrievalStarted, RetrievalCompleted, DiagnosisGenerated} {
      MiddleKinds(kind);
    } else {
      LateKinds(kind);
    }
  }

  lemma EventLines(e: RunEvent, codec: Codec)
    requires Faithful(codec) && ValidEvent(e)
    ensures Lines(EventBlock(e, codec)) == ["id: " + Decimal(e.id)]
            + (["event: " + KindName(e.kind)] + ["data: " + codec.encode(e)])
  {
    KindsAreSingleLines(e.kind);
    var id, name, data := "id: " + Decimal(e.id), "event: " + KindName(e.kind), "data: " + codec.encode(e);
    assert SingleLine(id) && SingleLine(name) && SingleLine(data);
    hide Decimal, KindName, SingleLine, Lines;
    FirstLine(id, name + "\n" + data);
    FirstLine(name, data);
    LastLine(data);
  }

  lemma ReadNext(f: Fields, a: string, rest: seq<string>)
    ensures ReadLines(f, [a] + rest) == ReadLines(ReadLine(f, a), rest)
  {
    hide ReadLine;
    assert ([a] + rest)[1..] == rest;
  }

  lemma ReadLast(f: Fields, a: string)
    ensures ReadLines(f, [a]) == ReadLine(f, a)
  {
    ReadNext(f, a, []);
    assert [a] == [a] + [];
  }

  lemma ReadThree(f: Fields, a: string, b: string, c: string)
    ensures ReadLines(f, [a] + ([b] + [c])) == ReadLine(ReadLine(ReadLine(f, a), b), c)
  {
    hide ReadLine, ReadLines;
    ReadNext(f, a, [b] + [c]);
    ReadNext(ReadLine(f, a), b, [c]);
    ReadLast(ReadLine(ReadLine(f, a), b), c);
  }

  /** What the writer writes for an event, the reader reads as that event. */
  lemma EventRoundTrip(e: RunEvent, codec: Codec)
    requires Faithful(codec) && ValidEvent(e)
    ensures ParseBlock(EventBlock(e, codec), codec) == Outcome(false, Some(e), false)
  {
    hide ReadLine, ReadLines, Lines, EventBlock, Decimal, KindName;
    EventLines(e, codec);
    var id, name, data := Decimal(e.id), KindName(e.kind), codec.encode(e);
    assert "id: " + id == "id" + ": " + id && "event: " + name == "event" + ": " + name
      && "data: " + data == "data" + ": " + data;
    ReadThree(NO_FIELDS, "id: " + id, "event: " + name, "data: " + data);
    FieldLine(NO_FIELDS, "id", id);
    FieldLine(NO_FIELDS.(id := id), "event", name);
    FieldLine(NO_FIELDS.(id := id, name := name), "data", data);
    assert [] + [data] == [data];
  }

  lemma HelloLine(f: Fields, stream: string)
    ensures ReadLine(f, ": connected " + stream) == f.(connected := true)
  {
    var line := ": connected " + stream;
    assert line[1..] == " " + ("connected " + stream);
    var text := "connected " + stream;
    assert (" " + text)[1..] == text && TrimStart(text) == text;
    assert TrimStart(" " + text) == TrimStart(text);
    assert text[..9] == "connected";
  }

  lemma RetryLine(f: Fields)
    ensures ReadLine(f, RETRY) == f
  {
    assert RETRY == "retry" + ": " + "3000";
    FieldLine(f, "retry", "3000");
  }

  /** The writer's first block confirms the connection. */
  lemma HelloRoundTrip(stream: string, codec: Codec)
    requires SingleLine(stream)
    ensures ParseBlock(HelloBlock(stream), codec) == Outcome(true, None, false)
  {
    var first := ": connected " + stream;
    assert SingleLine(first) && SingleLine(RETRY);
    hide ReadLine, ReadLines, Lines, SingleLine, RETRY;
    FirstLine(first, RETRY);
    LastLine(RETRY);
    ReadNext(NO_FIELDS, first, [RETRY]);
    ReadLast(ReadLine(NO_FIELDS, first), RETRY);
    HelloLine(NO_FIELDS, stream);
    RetryLine(NO_FIELDS.(connected := true));
  }

  /** The writer's heartbeat means nothing to the reader. */
  lemma HeartbeatRoundTrip(codec: Codec)
    ensures ParseBlock(HEARTBEAT, codec) == Outcome(false, None, false)
  {
    assert SingleLine(HEARTBEAT);
    hide ReadLine, ReadLines, Lines, SingleLine, HEARTBEAT;
    LastLine(HEARTBEAT);
    ReadLast(NO_FIELDS, HEARTBEAT);
    HeartbeatLine(NO_FIELDS);
  }

  lemma HeartbeatLine(f: Fields)
    ensures ReadLine(f, HEARTBEAT) == f
  {
    assert HEARTBEAT[1..] == " heartbeat" && " heartbeat"[1..] == "heartbeat";
    assert TrimStart("heartbeat") == "heartbeat";
    assert TrimStart(" heartbeat") == "heartbeat";
    assert "heartbeat"[0] != "connected"[0];
  }

  // --- The writer's blocks can be framed ---

  lemma LinesHaveNoBoundary(a: string, b: string)
    requires NoBoundary(a) && SingleLine(b) && b != "" && (a == "" || a[|a| - 1] !in {'\n', '\r'})
    ensures NoBoundary(a + "\n" + b)
  {
    var s := a + "\n" + b;
    forall k | 0 <= k <= |s|
      ensures BoundaryAt(s, k) == 0
    {
      if k < |a| {
        assert BoundaryAt(a, k) == 0;
      } else {
        assert forall i :: |a| < i < |s| ==> s[i] in b;
      }
    }
  }

  lemma SingleHasNoBoundary(a: string)
    requires SingleLine(a)
    ensures NoBoundary(a)
  {
    assert forall i :: 0 <= i < |a| ==> a[i] in a;
  }

  lemma EventIsFramable(e: RunEvent, codec: Codec)
    requires Faithful(codec) && ValidEvent(e)
    ensures Framable(EventBlock(e, codec))
  {
    KindsAreSingleLines(e.kind);
    var id, name, data := "id: " + Decimal(e.id), "event: " + KindName(e.kind), "data: " + codec.encode(e);
    assert SingleLine(id) && SingleLine(name) && SingleLine(data);
    hide Decimal, KindName, BoundaryAt, FirstBoundary, SingleLine;
    Endings(id);
    Endings(name);
    Endings(data);
    SingleHasNoBoundary(id);
    LinesHaveNoBoundary(id, name);
    assert (id + "\n" + name)[|id + "\n" + name| - 1] == name[|name| - 1];
    LinesHaveNoBoundary(id + "\n" + name, data);
    var block := EventBlock(e, codec);
    assert block == id + "\n" + name + "\n" + data;
    assert block[|block| - 1] == data[|data| - 1];
    FramableIff(block);
  }

  lemma Endings(a: string)
    requires SingleLine(a) && a != ""
    ensures a[|a| - 1] !in {'\n', '\r'}
  {
    assert a[|a| - 1] in a;
  }

  lemma HelloIsFramable(stream: string)
    requires SingleLine(stream)
    ensures Framable(HelloBlock(stream)) && Framable(HEARTBEAT)
  {
    var first, second := ": connected " + stream, "retry: 3000";
    assert SingleLine(first) && SingleLine(second) && SingleLine(HEARTBEAT);
    Endings(first);
    Endings(second);
    Endings(HEARTBEAT);
    SingleHasNoBoundary(first);
    SingleHasNoBoundary(HEARTBEAT);
    LinesHaveNoBoundary(first, second);
    var block := HelloBlock(stream);
    assert block[|block| - 1] == second[|second| - 1];
    FramableIff(block);
    FramableIff(HEARTBEAT);
  }
}
