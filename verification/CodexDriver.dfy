/** The `codex exec` driver and its line parser (crates/am-agents/src/codex.rs). */
module CodexDriver {
  import opened Sequences
  import opened Wrappers
  import opened Agents
  import Text

  datatype Parsed = Parsed(events: seq<NormalizedEvent>, terminal: Option<SessionStatus>)

  datatype ItemPhase = Started | Updated | Completed

  // ----------------------------------------------------------------- parsing

  function CommandExecution(item: Value, phase: ItemPhase): seq<NormalizedEvent> {
    match phase
    case Started =>
      [ToolUse(None, "Command", Obj(map["command" := Str(Default(item.Field("command"), ""))]))]
    case Updated => []
    case Completed =>
      var status := Default(item.Field("status"), "");
      var code := item.Get("exit_code");
      var exit := if code.Some? && code.value.Int? && -(I64_MAX as int) - 1 <= code.value.number <= I64_MAX
                  then Some(code.value.number) else None;
      var output := Default(item.Field("aggregated_output"), "");
      var summary :=
        if !Blank(output) then Truncate(output, 800)
        else if exit.Some? then "exit code " + Signed(exit.value)
        else status;
      [ToolResult(None, status == "completed" && Default(exit, 0) == 0, summary)]
  }

  function Signed(n: int): string {
    if n < 0 then "-" + Text.Decimal(-n) else Text.Decimal(n)
  }

  /** The events of the first `n` changes. */
  function FileChanges(changes: seq<Value>, n: nat): seq<NormalizedEvent>
    requires n <= |changes|
  {
    if n == 0 then [] else FileChanges(changes, n - 1) + FileChange(changes[n - 1])
  }

  function KindOf(change: Value): ChangeKind {
    match change.Field("kind")
    case Some(k) => if k == "add" then Created else if k == "delete" then Deleted else Modified
    case None => Modified
  }

  function FileChange(change: Value): seq<NormalizedEvent> {
    var path := change.Field("path");
    if path.None? then [] else [FileChanged(path.value, KindOf(change))]
  }

  function ChangesResult(item: Value, n: nat): NormalizedEvent {
    ToolResult(None, item.Field("status") == Some("completed"),
               Text.Decimal(n) + " file change" + (if n == 1 then "" else "s"))
  }

  function FileChangeItem(item: Value): seq<NormalizedEvent> {
    var changes := item.Get("changes");
    if changes.None? || !changes.value.Arr? then []
    else FileChanges(changes.value.items, |changes.value.items|) + [ChangesResult(item, |changes.value.items|)]
  }

  /** The loop of `parse_file_change`. */
  method PushChanges(changes: seq<Value>) returns (out: seq<NormalizedEvent>)
    ensures out == FileChanges(changes, |changes|)
  {
    out := [];
    for i := 0 to |changes|
      invariant out == FileChanges(changes, i)
    {
      var path := changes[i].Field("path");
      if path.None? { continue; }
      out := out + [FileChanged(path.value, KindOf(changes[i]))];
    }
  }

  /** `parse_file_change`. */
  method ParseFileChange(item: Value, before: seq<NormalizedEvent>) returns (out: seq<NormalizedEvent>)
    ensures out == before + FileChangeItem(item)
  {
    out := before;
    var changes := item.Get("changes");
    if changes.Some? && changes.value.Arr? {
      var events := PushChanges(changes.value.items);
      out := out + (events + [ChangesResult(item, |changes.value.items|)]);
    }
  }

  function McpToolCall(env: Environment, item: Value, phase: ItemPhase): seq<NormalizedEvent> {
    var server := Default(item.Field("server"), "");
    var tool := Default(item.Field("tool"), "tool");
    match phase
    case Started =>
      var arguments := Default(item.Get("arguments"), Null);
      [ToolUse(None, if server == "" then tool else server + "/" + tool,
               Obj(map["server" := Str(server), "tool" := Str(tool), "arguments" := arguments]))]
    case Updated => []
    case Completed =>
      var status := Default(item.Field("status"), "");
      var result := item.Get("result");
      var summary := Default(
        OrElse(AsStr(GetIn(item.Get("error"), "message")),
               if result.Some? then Some(Truncate(env.render(result.value), 800)) else None),
        status);
      [ToolResult(None, status == "completed" && item.Get("error").None?, summary)]
  }

  function WebSearch(item: Value, phase: ItemPhase): seq<NormalizedEvent> {
    var query := Default(item.Field("query"), "");
    match phase
    case Started =>
      [ToolUse(None, "WebSearch",
               Obj(map["query" := Str(query), "action" := Default(item.Get("action"), Null)]))]
    case Updated => []
    case Completed => [ToolResult(None, true, Truncate(query, 800))]
  }

  function ParseItem(env: Environment, item: Value, phase: ItemPhase): seq<NormalizedEvent> {
    var kind := Default(item.Field("type"), "");
    if kind == "command_execution" then CommandExecution(item, phase)
    else if kind == "mcp_tool_call" then McpToolCall(env, item, phase)
    else if kind == "web_search" then WebSearch(item, phase)
    else if phase != ItemPhase.Completed then []
    else if kind == "agent_message" then
      var text := item.Field("text");
      if text.Some? && !Blank(text.value) then [AssistantText(text.value)] else []
    else if kind == "file_change" then FileChangeItem(item)
    else if kind == "error" && item.Field("message").Some? then
      ErrorOrLimit(env, item.Field("message").value)
    else []
  }

  function ItemEvents(env: Environment, item: Option<Value>, phase: ItemPhase): seq<NormalizedEvent> {
    if item.Some? then ParseItem(env, item.value, phase) else []
  }

  function ParseUsage(usage: Option<Value>): seq<NormalizedEvent> {
    var input := AsI64(GetIn(usage, "input_tokens"));
    var output := AsI64(GetIn(usage, "output_tokens"));
    if input + output > 0 then [TokenUsage(input, output)] else []
  }

  function Message(env: Environment, message: Option<string>): seq<NormalizedEvent> {
    if message.Some? then ErrorOrLimit(env, message.value) else []
  }

  function ParseLine(env: Environment, v: Value): Parsed {
    var kind := Default(v.Field("type"), "");
    if kind == "thread.started" then
      var thread := v.Field("thread_id");
      Parsed(if thread.Some? then [SessionStarted(thread.value)] else [], None)
    else if kind == "turn.completed" then
      Parsed(ParseUsage(v.Get("usage")), Some(SessionStatus.Completed))
    else if kind == "turn.failed" then
      Parsed(Message(env, AsStr(GetIn(v.Get("error"), "message"))), Some(Failed))
    else if kind == "error" then
      Parsed(Message(env, v.Field("message")), None)
    else if kind == "item.started" then
      Parsed(ItemEvents(env, v.Get("item"), Started), None)
    else if kind == "item.updated" then
      Parsed(ItemEvents(env, v.Get("item"), Updated), None)
    else if kind == "item.completed" then
      Parsed(ItemEvents(env, v.Get("item"), ItemPhase.Completed), None)
    else
      Parsed([], None)
  }

  lemma {:induction false} FileChangesAreChanges(changes: seq<Value>, n: nat)
    requires n <= |changes|
    ensures forall e :: e in FileChanges(changes, n) ==> e.FileChanged?
  {
    if n > 0 {
      FileChangesAreChanges(changes, n - 1);
    }
  }

  predicate Plain(events: seq<NormalizedEvent>) {
    forall e :: e in events ==> !e.SessionEnded? && !e.TokenUsage?
  }

  lemma FileChangeItemIsPlain(item: Value)
    ensures Plain(FileChangeItem(item))
  {
    FileChangesAreChanges(Items(item.Get("changes")), |Items(item.Get("changes"))|);
  }

  lemma ToolEventsArePlain(env: Environment, item: Value, phase: ItemPhase)
    ensures Plain(CommandExecution(item, phase)) && Plain(McpToolCall(env, item, phase)) && Plain(WebSearch(item, phase))
  {}

  lemma ItemsArePlain(env: Environment, item: Value, phase: ItemPhase)
    ensures Plain(ParseItem(env, item, phase))
  {
    FileChangeItemIsPlain(item);
    ToolEventsArePlain(env, item, phase);
  }

  /** No line ends the session by itself, the only hints are the outcomes of a
      turn, and tokens are reported by the completion of a turn alone. */
  lemma ParserOnlyHints(env: Environment, v: Value)
    ensures NoEnding(ParseLine(env, v).events)
    ensures ParseLine(env, v).terminal == Some(SessionStatus.Completed) <==> v.Field("type") == Some("turn.completed")
    ensures ParseLine(env, v).terminal == Some(Failed) <==> v.Field("type") == Some("turn.failed")
    ensures ParseLine(env, v).terminal != Some(Interrupted)
    ensures v.Field("type") != Some("turn.completed") ==> Plain(ParseLine(env, v).events)
  {
    if v.Get("item").Some? {
      ItemsArePlain(env, v.Get("item").value, Started);
      ItemsArePlain(env, v.Get("item").value, Updated);
      ItemsArePlain(env, v.Get("item").value, ItemPhase.Completed);
    }
  }

  // ------------------------------------------------------- what a run amounts to
  // The driver is the same for every line parser `p`; `LineParser` is its own.

  type Parser = Value -> Parsed

  function LineParser(env: Environment): Parser {
    v => ParseLine(env, v)
  }

  function TurnEvents(env: Environment, p: Parser, t: Turn): seq<NormalizedEvent> {
    var v := Structured(env, t);
    if v.Some? then p(v.value).events else []
  }

  /** The parse of every line of the first `n` turns, in order. */
  function EventsOf(env: Environment, p: Parser, turns: seq<Turn>, n: nat): seq<NormalizedEvent>
    requires n <= |turns|
  {
    if n == 0 then [] else EventsOf(env, p, turns, n - 1) + TurnEvents(env, p, turns[n - 1])
  }

  /** The last hint in the first `n` turns. */
  function HintOf(env: Environment, p: Parser, turns: seq<Turn>, n: nat): Option<SessionStatus>
    requires n <= |turns|
  {
    if n == 0 then None else
      var v := Structured(env, turns[n - 1]);
      OrElse(if v.Some? then p(v.value).terminal else None, HintOf(env, p, turns, n - 1))
  }

  /** Whether turn `i` leaves the loop. */
  predicate Stops(env: Environment, turns: seq<Turn>, i: nat)
    requires i < |turns|
  {
    match turns[i]
    case Line(_) => false
    case Steer(_) => false
    case StartupTimeout => !SawStructured(env, turns, i)
    case _ => true
  }

  /** Index of the turn that leaves the loop: the turns before it are consumed. */
  function StopAt(env: Environment, turns: seq<Turn>, from: nat := 0): (k: nat)
    requires from <= |turns|
    ensures from <= k <= |turns|
    decreases |turns| - from
  {
    if from == |turns| || Stops(env, turns, from) then from else StopAt(env, turns, from + 1)
  }

  /** It is the first turn that leaves the loop. */
  lemma {:induction false} StopIsFirst(env: Environment, turns: seq<Turn>, from: nat, i: nat)
    requires from <= i < |turns|
    ensures i < StopAt(env, turns, from) ==> !Stops(env, turns, i)
    ensures i == StopAt(env, turns, from) ==> Stops(env, turns, i)
    decreases |turns| - from
  {
    if from < i && !Stops(env, turns, from) {
      StopIsFirst(env, turns, from + 1, i);
    }
  }

  /** The parse of the consumed lines. */
  function Parsing(env: Environment, p: Parser, turns: seq<Turn>): seq<NormalizedEvent> {
    EventsOf(env, p, turns, StopAt(env, turns))
  }

  function Stopper(env: Environment, turns: seq<Turn>): Turn {
    var k := StopAt(env, turns);
    if k < |turns| then turns[k] else OutputEnds
  }

  function FinalStatus(env: Environment, p: Parser, turns: seq<Turn>, exitOk: bool, left: bool): SessionStatus {
    var hint := HintOf(env, p, turns, StopAt(env, turns));
    if CutsShort(Stopper(env, turns)) || left then Interrupted
    else if hint.Some? then hint.value
    else if exitOk then SessionStatus.Completed
    else Failed
  }

  /** What is said about a run that was timed out, or died without an outcome. */
  function Closing(env: Environment, p: Parser, turns: seq<Turn>, exitOk: bool): seq<NormalizedEvent> {
    var stop := StopAt(env, turns);
    var stopper := Stopper(env, turns);
    var diagnostics := env.diagnostics(Unparsed(env, turns, stop));
    if IsTimer(stopper) then [Error(WithDiagnostics(TimeoutMessage(stopper), diagnostics), true)]
    else if !CutsShort(stopper) && !exitOk && HintOf(env, p, turns, stop).None? && diagnostics != ""
    then [Failure(env, diagnostics)]
    else []
  }

  /** Everything a receiver that stays to the end is sent. */
  function Script(env: Environment, p: Parser, turns: seq<Turn>, exitOk: bool): seq<NormalizedEvent> {
    Parsing(env, p, turns) + Closing(env, p, turns, exitOk)
    + [SessionEnded(FinalStatus(env, p, turns, exitOk, false))]
  }

  // ------------------------------------------------------------------ the driver

  /** The `select!` loop of `drive`. A list of turns that runs out is the end of
      the output. */
  method ReadOutput(env: Environment, p: Parser, turns: seq<Turn>, accepts: Option<nat>)
    returns (sent: seq<NormalizedEvent>, cancelled: bool, timer: Option<Turn>,
             terminal: Option<SessionStatus>, unparsed: seq<string>)
    ensures sent == Delivered(Parsing(env, p, turns), accepts)
    ensures if ReceiverLeaves(Parsing(env, p, turns), accepts)
            then cancelled && timer.None?
            else && cancelled == CutsShort(Stopper(env, turns))
                 && timer == TimerOf(Stopper(env, turns))
                 && terminal == HintOf(env, p, turns, StopAt(env, turns))
                 && unparsed == Unparsed(env, turns, StopAt(env, turns))
  {
    sent, cancelled, timer, terminal, unparsed := [], false, None, None, [];
    var sawStructured := false;
    ghost var stop := StopAt(env, turns);
    var i := 0;
    while i < |turns|
      invariant i <= |turns|
      invariant StopAt(env, turns, i) == stop
      invariant !cancelled && timer.None?
      invariant !ReceiverLeaves(sent, accepts)
      invariant sent == EventsOf(env, p, turns, i)
      invariant terminal == HintOf(env, p, turns, i)
      invariant sawStructured == SawStructured(env, turns, i)
      invariant unparsed == Unparsed(env, turns, i)
      decreases |turns| - i
    {
      match turns[i] {
        case Line(trimmed) =>
          if trimmed != "" {
            var value := env.parse(trimmed);
            if value.Some? {
              sawStructured := true;
              var parsed := p(value.value);
              if parsed.terminal.Some? { terminal := parsed.terminal; }
              sent, cancelled := SendAll(sent, accepts, parsed.events);
              if cancelled {
                LeftMidway(env, p, turns, i, accepts);
                return;
              }
            } else {
              unparsed := unparsed + [trimmed];
            }
          }
        case OutputEnds => break;
        case StartupTimeout =>
          if !sawStructured {
            cancelled := true;
            timer := Some(turns[i]);
            break;
          }
        case Steer(_) =>
        case _ =>
          cancelled := true;
          timer := TimerOf(turns[i]);
          break;
      }
      i := i + 1;
    }
  }

  /** `drive`: the loop, then how the process exited. */
  method Drive(env: Environment, p: Parser, turns: seq<Turn>, exitOk: bool, accepts: Option<nat>)
    returns (sent: seq<NormalizedEvent>, finalStatus: SessionStatus)
    ensures sent == Delivered(Script(env, p, turns, exitOk), accepts)
    ensures finalStatus == FinalStatus(env, p, turns, exitOk, ReceiverLeaves(Parsing(env, p, turns), accepts))
  {
    var cancelled, timer, terminal, unparsed;
    sent, cancelled, timer, terminal, unparsed := ReadOutput(env, p, turns, accepts);
    finalStatus := if cancelled then Interrupted else if terminal.Some? then terminal.value
                   else if exitOk then SessionStatus.Completed else Failed;
    var ok: bool;
    var diagnostics := env.diagnostics(unparsed);
    if timer.Some? {
      sent, ok := Send(sent, accepts, Error(WithDiagnostics(TimeoutMessage(timer.value), diagnostics), true));
    }
    if !cancelled && !exitOk && terminal.None? && diagnostics != "" {
      sent, ok := Send(sent, accepts, Failure(env, diagnostics));
    }
    sent, ok := Send(sent, accepts, SessionEnded(finalStatus));
    DeliverScript(Parsing(env, p, turns), Closing(env, p, turns, exitOk),
                  SessionEnded(FinalStatus(env, p, turns, exitOk, false)), accepts);
  }

  /** The loop over one line's events: stops at the first the receiver refuses. */
  method SendAll(before: seq<NormalizedEvent>, accepts: Option<nat>, events: seq<NormalizedEvent>)
    returns (sent: seq<NormalizedEvent>, left: bool)
    requires !ReceiverLeaves(before, accepts)
    ensures sent == Delivered(before + events, accepts)
    ensures left <==> ReceiverLeaves(before + events, accepts)
  {
    sent := before;
    left := false;
    for i := 0 to |events|
      invariant sent == before + events[..i]
      invariant !ReceiverLeaves(sent, accepts)
    {
      var ok: bool;
      assert before + events == before + events[..i] + events[i..];
      sent, ok := Send(sent, accepts, events[i]);
      if !ok {
        return sent, true;
      }
      assert before + events[..i] + [events[i]] == before + events[..i + 1];
    }
    assert events[..|events|] == events;
  }

  lemma {:induction false} EventsGrow(env: Environment, p: Parser, turns: seq<Turn>, i: nat, j: nat)
    returns (rest: seq<NormalizedEvent>)
    requires i <= j <= |turns|
    ensures EventsOf(env, p, turns, j) == EventsOf(env, p, turns, i) + rest
    decreases j
  {
    if i == j {
      rest := [];
    } else {
      var less := EventsGrow(env, p, turns, i, j - 1);
      var last := TurnEvents(env, p, turns[j - 1]);
      rest := less + last;
      Regroup(EventsOf(env, p, turns, i), less, last);
    }
  }

  /** A receiver that left during line `i` misses the rest of the script. */
  lemma LeftMidway(env: Environment, p: Parser, turns: seq<Turn>, i: nat, accepts: Option<nat>)
    requires i < StopAt(env, turns)
    requires ReceiverLeaves(EventsOf(env, p, turns, i + 1), accepts)
    ensures ReceiverLeaves(Parsing(env, p, turns), accepts)
    ensures Delivered(EventsOf(env, p, turns, i + 1), accepts) == Delivered(Parsing(env, p, turns), accepts)
  {
    var rest := EventsGrow(env, p, turns, i + 1, StopAt(env, turns));
    DeliverPastTheEnd(EventsOf(env, p, turns, i + 1), rest, accepts);
  }

  // --------------------------------------------------------------- main results

  lemma {:induction false} ParsingNeverEnds(env: Environment, turns: seq<Turn>, n: nat)
    requires n <= |turns|
    ensures NoEnding(EventsOf(env, LineParser(env), turns, n))
    ensures HintOf(env, LineParser(env), turns, n) != Some(Interrupted)
  {
    if n > 0 {
      ParsingNeverEnds(env, turns, n - 1);
      var v := Structured(env, turns[n - 1]);
      if v.Some? {
        ParserOnlyHints(env, v.value);
      }
    }
  }

  /** In every run, whatever the receiver took, the end of the session is told at
      most once, nothing follows it, and it is told to every receiver that stays. */
  lemma SessionEndsOnce(env: Environment, turns: seq<Turn>, exitOk: bool, accepts: Option<nat>)
    ensures var script := Script(env, LineParser(env), turns, exitOk);
            var received := Delivered(script, accepts);
            && (forall i :: 0 <= i < |received| ==> (received[i].SessionEnded? <==> i == |script| - 1))
            && (accepts.None? ==> received != [] && received[|received| - 1].SessionEnded?)
  {
    ParsingNeverEnds(env, turns, StopAt(env, turns));
    var parsed := Parsing(env, LineParser(env), turns);
    var closing := Closing(env, LineParser(env), turns, exitOk);
    assert NoEnding(parsed + closing);
  }

  /** A session that nobody cut short is never reported as interrupted, and one
      that was always is. */
  lemma InterruptedIffCutShort(env: Environment, turns: seq<Turn>, exitOk: bool)
    ensures FinalStatus(env, LineParser(env), turns, exitOk, false) == Interrupted <==> CutsShort(Stopper(env, turns))
  {
    ParsingNeverEnds(env, turns, StopAt(env, turns));
  }

  /** The outcome a line announces. */
  function Outcome(env: Environment, t: Turn): Option<SessionStatus> {
    var v := Structured(env, t);
    if v.Some? && v.value.Field("type") == Some("turn.completed") then Some(SessionStatus.Completed)
    else if v.Some? && v.value.Field("type") == Some("turn.failed") then Some(Failed)
    else None
  }

  lemma {:induction false} HintIsLastOutcome(env: Environment, turns: seq<Turn>, n: nat, k: int)
    requires n <= |turns| && -1 <= k < n
    requires forall j :: k < j < n ==> Outcome(env, turns[j]).None?
    requires k >= 0 ==> Outcome(env, turns[k]).Some?
    ensures HintOf(env, LineParser(env), turns, n) == if k >= 0 then Outcome(env, turns[k]) else None
  {
    if n > 0 {
      var v := Structured(env, turns[n - 1]);
      if v.Some? {
        ParserOnlyHints(env, v.value);
      }
      if k < n - 1 {
        HintIsLastOutcome(env, turns, n - 1, k);
      }
    }
  }

  /** The last outcome in the stream (at turn `k`, or none for -1) beats the exit
      code; without one the exit code decides. A closing event means a timeout, or
      a failed exit that the stream did not explain. */
  lemma OutcomeBeatsExitCode(env: Environment, turns: seq<Turn>, exitOk: bool, k: int)
    requires -1 <= k < StopAt(env, turns)
    requires forall j :: k < j < StopAt(env, turns) ==> Outcome(env, turns[j]).None?
    requires k >= 0 ==> Outcome(env, turns[k]).Some?
    ensures !CutsShort(Stopper(env, turns)) ==>
              FinalStatus(env, LineParser(env), turns, exitOk, false)
              == (if k >= 0 then Outcome(env, turns[k]).value else if exitOk then SessionStatus.Completed else Failed)
    ensures Closing(env, LineParser(env), turns, exitOk) != [] <==>
              || IsTimer(Stopper(env, turns))
              || (&& Stopper(env, turns) != Cancel && k == -1 && !exitOk
                  && env.diagnostics(Unparsed(env, turns, StopAt(env, turns))) != "")
  {
    HintIsLastOutcome(env, turns, StopAt(env, turns), k);
  }
}
