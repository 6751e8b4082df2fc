/** The Claude driver, its line parser and its token accounting
    (crates/am-agents/src/claude.rs). */
module ClaudeDriver {
  import opened Sequences
  import opened Wrappers
  import opened Agents
  import opened Loops
  import Text

  // ----------------------------------------------------------------- parsing

  const TWO_64: nat := 0x1_0000_0000_0000_0000

  function SaturatingAdd(a: nat, b: nat): nat {
    if a + b <= U64_MAX then a + b else U64_MAX
  }

  function SaturatingSub(a: nat, b: nat): nat {
    if a >= b then a - b else 0
  }

  /** The four figures of a usage object. */
  datatype Figures = Figures(input: nat, cached: nat, creation: nat, output: nat) {
    function Sum(): nat { input + cached + creation + output }

    ghost predicate Fit() {
      input <= U64_MAX && cached <= U64_MAX && creation <= U64_MAX && output <= U64_MAX
    }
  }

  function FiguresOf(usage: Value): (f: Figures)
    ensures f.Fit()
  {
    Figures(AsU64(usage.Get("input_tokens")),
            AsU64(OrElse(usage.Get("cache_read_input_tokens"), usage.Get("cached_input_tokens"))),
            AsU64(OrElse(usage.Get("cache_creation_input_tokens"), usage.Get("cached_creation_input_tokens"))),
            AsU64(usage.Get("output_tokens")))
  }

  /** The report of a usage object; the sum that is tested is unchecked and wraps
      at 64 bits. */
  function Report(f: Figures): seq<NormalizedEvent> {
    if f.Sum() % TWO_64 > 0
    then [TokenUsage(SaturatingAdd(SaturatingAdd(f.input, f.cached), f.creation), f.output)]
    else []
  }

  /** `token_usage_event`. */
  function TokenUsageEvent(usage: Option<Value>): seq<NormalizedEvent> {
    if usage.Some? then Report(FiguresOf(usage.value)) else []
  }

  function UsageMessageId(v: Value): Option<string> {
    AsStr(OrElse(GetIn(v.Get("message"), "id"), OrElse(GetIn(v.Get("message"), "message_id"), v.Get("message_id"))))
  }

  function AssistantBlock(block: Value): seq<NormalizedEvent> {
    var kind := Default(block.Field("type"), "");
    if kind == "text" then
      var text := block.Field("text");
      if text.Some? && !Blank(text.value) then [AssistantText(text.value)] else []
    else if kind == "tool_use" then
      [ToolUse(block.Field("id"), Default(block.Field("name"), "tool"), Default(block.Get("input"), Null))]
    else []
  }

  function Texts(items: seq<Value>): seq<string> {
    if items == [] then [] else
      var text := items[0].Field("text");
      (if text.Some? then [text.value] else []) + Texts(items[1..])
  }

  function Join(parts: seq<string>, separator: string): string {
    if parts == [] then "" else if |parts| == 1 then parts[0] else parts[0] + separator + Join(parts[1..], separator)
  }

  function ToolContent(env: Environment, content: Option<Value>): string {
    Truncate(
      match content
      case None => ""
      case Some(Str(s)) => s
      case Some(Arr(items)) => Join(Texts(items), "\n")
      case Some(other) => env.render(other),
      800)
  }

  function UserBlock(env: Environment, block: Value): seq<NormalizedEvent> {
    if block.Field("type") == Some("tool_result") then
      [ToolResult(block.Field("tool_use_id"), !IsTrue(block.Get("is_error")), ToolContent(env, block.Get("content")))]
    else []
  }

  function BlockEvents(blocks: seq<Value>, block: Value -> seq<NormalizedEvent>): seq<NormalizedEvent> {
    if blocks == [] then [] else block(blocks[0]) + BlockEvents(blocks[1..], block)
  }

  function ToolName(entry: Value): string {
    Default(entry.Field("tool_name"), "a tool")
  }

  function Mention(seen: seq<string>, entry: Value): seq<string> {
    if ToolName(entry) in seen then seen else seen + [ToolName(entry)]
  }

  function DeniedNames(entries: seq<Value>, seen: seq<string>): seq<string> {
    if entries == [] then seen else
      DeniedNames(entries[1..], Mention(seen, entries[0]))
  }

  /** Where `name` is first mentioned, for a tool that is. */
  ghost predicate FirstMention(entries: seq<Value>, name: string, i: nat) {
    i < |entries| && ToolName(entries[i]) == name && forall k :: 0 <= k < i ==> ToolName(entries[k]) != name
  }

  /** `names` are the tools of these entries: each of them, once, and in the order
      in which they are first mentioned. */
  ghost predicate FirstMentions(entries: seq<Value>, names: seq<string>) {
    && (forall i, j :: 0 <= i < j < |names| ==> names[i] != names[j])
    && (forall name :: name in names <==> exists e :: e in entries && ToolName(e) == name)
    && (forall i, j, a: nat, b: nat :: 0 <= i < j < |names| && FirstMention(entries, names[i], a) && FirstMention(entries, names[j], b)
          ==> a < b)
  }

  lemma NextMention(before: seq<Value>, entry: Value, names: seq<string>)
    requires FirstMentions(before, names)
    ensures FirstMentions(before + [entry], Mention(names, entry))
  {
    var entries, name := before + [entry], ToolName(entry);
    var now := Mention(names, entry);
    forall x ensures x in now <==> exists e :: e in entries && ToolName(e) == x {
      if x in names {
        var e :| e in before && ToolName(e) == x;
        assert e in entries;
      }
      assert entry in entries;
    }
    forall i, j, a: nat, b: nat | 0 <= i < j < |now| && FirstMention(entries, now[i], a) && FirstMention(entries, now[j], b)
      ensures a < b
    {
      MentionedBefore(before, entry, now[i], a);
      if j < |names| {
        MentionedBefore(before, entry, now[j], b);
      } else {
        assert forall k :: 0 <= k < |before| ==> before[k] in before && ToolName(before[k]) != name;
      }
    }
  }

  lemma MentionedBefore(before: seq<Value>, entry: Value, name: string, a: nat)
    requires FirstMention(before + [entry], name, a) && exists e :: e in before && ToolName(e) == name
    ensures FirstMention(before, name, a)
  {
    var entries := before + [entry];
    var e :| e in before && ToolName(e) == name;
    var k :| 0 <= k < |before| && before[k] == e;
    assert entries[k] == e;
    assert forall i :: 0 <= i < |before| ==> entries[i] == before[i];
  }

  lemma MentionFirst(before: seq<Value>, entries: seq<Value>, names: seq<string>)
    requires entries != []
    ensures before + [entries[0]] + entries[1..] == before + entries
    ensures DeniedNames(entries, names) == DeniedNames(entries[1..], Mention(names, entries[0]))
  {}

  lemma {:induction false} DeniedNamesFrom(before: seq<Value>, entries: seq<Value>, names: seq<string>)
    requires FirstMentions(before, names)
    ensures FirstMentions(before + entries, DeniedNames(entries, names))
    decreases |entries|
  {
    if entries == [] {
      assert before + [] == before;
    } else {
      var next := Mention(names, entries[0]);
      NextMention(before, entries[0], names);
      DeniedNamesFrom(before + [entries[0]], entries[1..], next);
      MentionFirst(before, entries, names);
    }
  }

  /** Every blocked tool is named, once, in the order of first mention. */
  lemma EveryDeniedToolIsNamedOnce(denied: seq<Value>)
    ensures FirstMentions(denied, DeniedNames(denied, []))
  {
    assert [] + denied == denied;
    DeniedNamesFrom([], denied, []);
  }

  function Denials(denied: seq<Value>): seq<NormalizedEvent> {
    if denied == [] then [] else
      [AwaitingApproval(Text.Decimal(|denied|) + " action" + (if |denied| == 1 then "" else "s")
                        + " blocked by the current permission level: " + Join(DeniedNames(denied, []), ", "))]
  }

  /** `permission_denials_detail`: every blocked tool once, in order of first mention. */
  method PermissionDenials(denied: seq<Value>) returns (out: seq<NormalizedEvent>)
    ensures out == Denials(denied)
  {
    if denied == [] {
      return [];
    }
    var names: seq<string> := [];
    for i := 0 to |denied|
      invariant DeniedNames(denied[i..], names) == DeniedNames(denied, [])
    {
      var name := ToolName(denied[i]);
      assert denied[i..][1..] == denied[i + 1..];
      if name !in names {
        names := names + [name];
      }
    }
    out := [AwaitingApproval(Text.Decimal(|denied|) + " action" + (if |denied| == 1 then "" else "s")
                             + " blocked by the current permission level: " + Join(names, ", "))];
  }

  function ResultEvents(env: Environment, v: Value): seq<NormalizedEvent> {
    var text := Default(v.Field("result"), "");
    TokenUsageEvent(v.Get("usage"))
    + Denials(Items(v.Get("permission_denials")))
    + (if IsTrue(v.Get("is_error")) then ErrorOrLimit(env, text) else [])
  }

  function AssistantEvents(v: Value): seq<NormalizedEvent> {
    TokenUsageEvent(OrElse(GetIn(v.Get("message"), "usage"), v.Get("usage")))
    + BlockEvents(Items(GetIn(v.Get("message"), "content")), AssistantBlock)
  }

  function StreamEvents(v: Value): seq<NormalizedEvent> {
    var event := Default(v.Get("event"), v);
    var delta := event.Get("delta");
    var text := AsStr(GetIn(delta, "text"));
    if && event.Field("type") == Some("content_block_delta") && AsStr(GetIn(delta, "type")) == Some("text_delta")
       && text.Some? && text.value != ""
    then [AssistantTextDelta(text.value)]
    else []
  }

  function SystemEvents(v: Value): seq<NormalizedEvent> {
    var session := v.Field("session_id");
    if v.Field("subtype") == Some("init") && session.Some? then [SessionStarted(session.value)] else []
  }

  function UserEvents(env: Environment, v: Value): seq<NormalizedEvent> {
    BlockEvents(Items(GetIn(v.Get("message"), "content")), b => UserBlock(env, b))
  }

  function ParseLine(env: Environment, v: Value): seq<NormalizedEvent> {
    var kind := Default(v.Field("type"), "");
    if kind == "system" then SystemEvents(v)
    else if kind == "assistant" then AssistantEvents(v)
    else if kind == "stream_event" then StreamEvents(v)
    else if kind == "user" then UserEvents(env, v)
    else if kind == "result" then ResultEvents(env, v)
    else []
  }

  predicate Plain(events: seq<NormalizedEvent>) {
    forall e :: e in events ==> !e.SessionEnded? && !e.TokenUsage?
  }

  /** At most one usage report, ahead of everything else, and no end of session. */
  predicate UsageFirst(events: seq<NormalizedEvent>) {
    if events != [] && events[0].TokenUsage?
    then Plain(events[1..]) && events[0].inputTokens <= U64_MAX && events[0].outputTokens <= U64_MAX
    else Plain(events)
  }

  lemma {:induction false} BlocksArePlain(blocks: seq<Value>, block: Value -> seq<NormalizedEvent>)
    requires forall b :: Plain(block(b))
    ensures Plain(BlockEvents(blocks, block))
  {
    if blocks != [] {
      BlocksArePlain(blocks[1..], block);
      assert Plain(block(blocks[0]));
    }
  }

  lemma UsageThenPlain(usage: Option<Value>, more: seq<NormalizedEvent>)
    requires Plain(more)
    ensures UsageFirst(TokenUsageEvent(usage) + more)
  {
    var first := TokenUsageEvent(usage);
    if first == [] {
      assert first + more == more;
    } else {
      assert (first + more)[1..] == more;
    }
  }

  lemma AssistantReportsUsageFirst(v: Value)
    ensures UsageFirst(AssistantEvents(v))
  {
    var content := Items(GetIn(v.Get("message"), "content"));
    BlocksArePlain(content, AssistantBlock);
    UsageThenPlain(OrElse(GetIn(v.Get("message"), "usage"), v.Get("usage")), BlockEvents(content, AssistantBlock));
  }

  lemma ResultReportsUsageFirst(env: Environment, v: Value)
    ensures UsageFirst(ResultEvents(env, v))
  {
    var denied := Denials(Items(v.Get("permission_denials")));
    var errors := if IsTrue(v.Get("is_error")) then ErrorOrLimit(env, Default(v.Field("result"), "")) else [];
    UsageThenPlain(v.Get("usage"), denied + errors);
    assert TokenUsageEvent(v.Get("usage")) + denied + errors == TokenUsageEvent(v.Get("usage")) + (denied + errors);
  }

  lemma UserLinesArePlain(env: Environment, v: Value)
    ensures UsageFirst(UserEvents(env, v))
  {
    BlocksArePlain(Items(GetIn(v.Get("message"), "content")), b => UserBlock(env, b));
  }

  lemma OtherLinesArePlain(v: Value)
    ensures UsageFirst(SystemEvents(v)) && UsageFirst(StreamEvents(v))
  {}

  lemma ParserReportsUsageFirst(env: Environment, v: Value)
    ensures UsageFirst(ParseLine(env, v))
  {
    AssistantReportsUsageFirst(v);
    ResultReportsUsageFirst(env, v);
    UserLinesArePlain(env, v);
    OtherLinesArePlain(v);
    assert UsageFirst([]);
  }

  /** A report is exact as long as the three input figures fit in 64 bits, and it
      is only missing where the figures are all zero or add up to 2^64 or more: to
      a multiple of it, which is exactly when the sum the code forms is zero. */
  lemma UsageReportIsExact(f: Figures)
    requires f.Fit()
    ensures 0 < f.Sum() < TWO_64 ==> Report(f) == [TokenUsage(f.input + f.cached + f.creation, f.output)]
    ensures Report(f) != [] ==>
              && (Report(f)[0].inputTokens == f.input + f.cached + f.creation
                  <==> f.input + f.cached + f.creation <= U64_MAX)
              && Report(f)[0].outputTokens == f.output && Report(f)[0].inputTokens <= f.input + f.cached + f.creation
    ensures Report(f) == [] <==> f.Sum() in {0, TWO_64, 2 * TWO_64, 3 * TWO_64}
  {
    var n := f.Sum();
    SmallSumsDoNotWrap(n);
    assert Report(f) == [] <==> n % TWO_64 == 0;
    assert n <= 4 * U64_MAX < 4 * TWO_64;
    MultiplesBelowFour(n);
    var inputs := SaturatingAdd(SaturatingAdd(f.input, f.cached), f.creation);
    assert inputs == f.input + f.cached + f.creation <==> f.input + f.cached + f.creation <= U64_MAX;
  }

  lemma MultiplesBelowFour(n: nat)
    requires n < 4 * TWO_64
    ensures n % TWO_64 == 0 <==> n in {0, TWO_64, 2 * TWO_64, 3 * TWO_64}
  {}

  lemma SmallSumsDoNotWrap(n: nat)
    ensures n < TWO_64 ==> n % TWO_64 == n
  {}

  /** Tokens that the wrapping sum loses. */
  lemma WrappedSumDropsUsage()
    ensures var f := Figures(U64_MAX, 0, 0, 1); f.Fit() && f.Sum() > 0 && Report(f) == []
  {
    assert Figures(U64_MAX, 0, 0, 1).Sum() == TWO_64;
  }

  // ------------------------------------------------------- what a run amounts to
  // The driver is the same for every line reader `p`; `Reader` is its own.

  datatype Kind = ControlRequest | Result | Other

  datatype Tokens = Tokens(input: nat, output: nat)

  /** A parsed line: its kind, its message id, the usage it states and the events
      after it. */
  datatype Message = Message(kind: Kind, id: Option<string>, usage: Option<Tokens>, rest: seq<NormalizedEvent>) {
    function Events(): seq<NormalizedEvent> {
      (if usage.Some? then [TokenUsage(usage.value.input, usage.value.output)] else []) + rest
    }

    predicate WellFormed() {
      && Plain(rest)
      && (usage.Some? ==> usage.value.input <= U64_MAX && usage.value.output <= U64_MAX)
    }
  }

  type LineReader = Value -> Message

  function Split(kind: Kind, id: Option<string>, events: seq<NormalizedEvent>): (m: Message)
    ensures m.Events() == events
    ensures UsageFirst(events) ==> m.WellFormed()
  {
    if events != [] && events[0].TokenUsage?
    then Message(kind, id, Some(Tokens(events[0].inputTokens, events[0].outputTokens)), events[1..])
    else Message(kind, id, None, events)
  }

  function KindOf(v: Value): Kind {
    if v.Field("type") == Some("control_request") then ControlRequest
    else if v.Field("type") == Some("result") then Result
    else Other
  }

  function Reader(env: Environment): LineReader {
    (v: Value) => Split(KindOf(v), UsageMessageId(v), ParseLine(env, v))
  }

  ghost predicate Reads(p: LineReader) {
    forall v :: p(v).WellFormed()
  }

  lemma ReaderReads(env: Environment)
    ensures Reads(Reader(env))
    ensures forall v :: Reader(env)(v).Events() == ParseLine(env, v)
  {
    forall v ensures Reader(env)(v).WellFormed() {
      ParserReportsUsageFirst(env, v);
    }
  }

  /** A turn as the loop takes it. */
  datatype Step = Said(m: Message) | Garbled(line: string) | Event(t: Turn)

  function Observe(env: Environment, p: LineReader, t: Turn): Step {
    if t.Line? && t.trimmed != "" then
      var v := env.parse(t.trimmed);
      if v.Some? then Said(p(v.value)) else Garbled(t.trimmed)
    else Event(t)
  }

  /** What the driver has taken note of. */
  datatype Account = Account(inputOpen: bool, structured: bool, sawResult: bool, seen: set<string>, totals: Tokens,
                             unparsed: seq<string>)

  predicate StatesUsage(s: Step) {
    s.Said? && s.m.kind == Other && s.m.usage.Some?
  }

  /** Whether a step is the first to state usage for its message. */
  predicate FirstReport(a: Account, s: Step) {
    StatesUsage(s) && (s.m.id.None? || s.m.id.value !in a.seen)
  }

  /** `MessageUsageTotals::record_message`. */
  function Record(t: Tokens, u: Tokens): Tokens {
    Tokens(SaturatingAdd(t.input, u.input), SaturatingAdd(t.output, u.output))
  }

  /** `MessageUsageTotals::result_delta`. */
  function Missing(t: Tokens, u: Tokens): Tokens {
    Tokens(SaturatingSub(u.input, t.input), SaturatingSub(u.output, t.output))
  }

  function After(a: Account, s: Step): Account {
    match s
    case Said(m) =>
      var result := m.kind == Result;
      Account(
        a.inputOpen && !result, true, a.sawResult || result,
        if StatesUsage(s) && m.id.Some? then a.seen + {m.id.value} else a.seen,
        if FirstReport(a, s) then Record(a.totals, m.usage.value) else a.totals,
        a.unparsed)
    case Garbled(line) => a.(unparsed := a.unparsed + [line])
    case Event(_) => a
  }

  /** What is sent of the usage a message states. */
  function Counted(a: Account, m: Message): seq<NormalizedEvent> {
    if m.usage.None? then []
    else if m.kind == Result then
      var missing := Missing(a.totals, m.usage.value);
      if missing == Tokens(0, 0) then [] else [TokenUsage(missing.input, missing.output)]
    else if FirstReport(a, Said(m)) then [TokenUsage(m.usage.value.input, m.usage.value.output)]
    else []
  }

  function SentFor(a: Account, s: Step): seq<NormalizedEvent> {
    if !s.Said? || s.m.kind == ControlRequest then [] else Counted(a, s.m) + s.m.rest
  }

  /** Whether a turn leaves the loop; an instruction is only taken while stdin is
      open. */
  predicate Stops(a: Account, t: Turn) {
    match t
    case Line(_) => false
    case Steer(delivered) => a.inputOpen && !delivered
    case StartupTimeout => !a.structured
    case _ => true
  }

  /** The `select!` loop; `input` says whether stdin is streamed. */
  function Driver(env: Environment, p: LineReader, input: bool): Machine<Account, Turn, NormalizedEvent> {
    Machine(
      Account(input, false, false, {}, Tokens(0, 0), []),
      (a: Account, t: Turn) => After(a, Observe(env, p, t)),
      (a: Account, t: Turn) => SentFor(a, Observe(env, p, t)),
      (a: Account, t: Turn) => Stops(a, t))
  }

  function FinalStatus(cut: bool, exitOk: bool): SessionStatus {
    if cut then Interrupted else if exitOk then Completed else Failed
  }

  /** What is said about a run that was timed out, or failed before its result. */
  function ClosingFor(env: Environment, a: Account, stopper: Turn, exitOk: bool): (closing: seq<NormalizedEvent>)
    ensures |closing| <= 1
  {
    var diagnostics := env.diagnostics(a.unparsed);
    if IsTimer(stopper) then [Error(WithDiagnostics(TimeoutMessage(stopper), diagnostics), true)]
    else if !CutsShort(stopper) && !exitOk && !a.sawResult && diagnostics != "" then [Failure(env, diagnostics)]
    else []
  }

  /** `stdin` is none for a run without streamed input, and otherwise whether the
      first prompt was accepted. */
  function Opening(stdin: Option<bool>): seq<NormalizedEvent> {
    if stdin == Some(false) then [Error("Claude stream input closed before the session started", false)] else []
  }

  function StopperAt(turns: seq<Turn>, stop: nat): Turn {
    if stop < |turns| then turns[stop] else OutputEnds
  }

  /** What follows a loop that ended like this. */
  function Ending(env: Environment, turns: seq<Turn>, o: Outcome<Account, Turn, NormalizedEvent>, exitOk: bool):
      seq<NormalizedEvent> {
    var stopper := StopperAt(turns, o.stop);
    ClosingFor(env, o.state, stopper, exitOk) + [SessionEnded(FinalStatus(CutsShort(stopper), exitOk))]
  }

  /** Everything a receiver that stays to the end is sent: the opening error, what
      the consumed lines send, and the ending. */
  function Script(env: Environment, p: LineReader, turns: seq<Turn>, stdin: Option<bool>, exitOk: bool):
      seq<NormalizedEvent> {
    var m := Driver(env, p, stdin.Some?);
    var stop := StopAt(m, turns);
    Opening(stdin) + EventsOf(m, turns, stop)
    + Ending(env, turns, Outcome(StateOf(m, turns, stop), EventsOf(m, turns, stop), stop), exitOk)
  }

  // ------------------------------------------------------------------ the driver

  /** One event of a message: what is sent of it, and what is noted. */
  method FilterEvent(event: NormalizedEvent, kind: Kind, id: Option<string>, seen: set<string>, totals: Tokens)
    returns (kept: seq<NormalizedEvent>, seenNow: set<string>, totalsNow: Tokens)
    ensures !event.TokenUsage? ==> kept == [event] && seenNow == seen && totalsNow == totals
    ensures event.TokenUsage? && kind != ControlRequest ==>
              forall a: Account, rest :: a.seen == seen && a.totals == totals ==>
                var m := Message(kind, id, Some(Tokens(event.inputTokens, event.outputTokens)), rest);
                && kept == Counted(a, m)
                && seenNow == After(a, Said(m)).seen
                && totalsNow == After(a, Said(m)).totals
  {
    kept, seenNow, totalsNow := [event], seen, totals;
    if event.TokenUsage? {
      var usage := Tokens(event.inputTokens, event.outputTokens);
      if kind == Result {
        var missing := Missing(totals, usage);
        kept := if missing == Tokens(0, 0) then [] else [TokenUsage(missing.input, missing.output)];
      } else {
        if id.Some? {
          if id.value in seen { return [], seen + {id.value}, totals; }
          seenNow := seen + {id.value};
        }
        totalsNow := Record(totals, usage);
      }
    }
  }

  /** Sending what is left of a list when `next` is refused. */
  lemma Refused(sent: seq<NormalizedEvent>, next: NormalizedEvent, rest: seq<NormalizedEvent>, accepts: Option<nat>)
    requires sent == Delivered(sent, accepts) && ReceiverLeaves(sent + [next], accepts)
    ensures Delivered(sent + [next] + rest, accepts) == sent && ReceiverLeaves(sent + [next] + rest, accepts)
  {
    DeliverPastTheEnd(sent + [next], rest, accepts);
    assert (sent + [next])[..|sent|] == sent;
  }

  /** The loop over one message's events: the first event the receiver refuses
      ends it. */
  method SendMessage(before: seq<NormalizedEvent>, accepts: Option<nat>, m: Message,
                     seenBefore: set<string>, totalsBefore: Tokens, ghost a: Account)
    returns (sent: seq<NormalizedEvent>, left: bool, seen: set<string>, totals: Tokens)
    requires m.WellFormed() && m.kind != ControlRequest
    requires before == Delivered(before, accepts) && a.seen == seenBefore && a.totals == totalsBefore
    ensures var all := before + SentFor(a, Said(m));
            sent == Delivered(all, accepts) && (left ==> ReceiverLeaves(all, accepts)) && (!left ==> sent == all)
    ensures !left ==> seen == After(a, Said(m)).seen && totals == After(a, Said(m)).totals
  {
    sent, left, seen, totals := before, false, seenBefore, totalsBefore;
    var events := m.Events();
    ghost var all := before + SentFor(a, Said(m));
    ghost var todo := SentFor(a, Said(m));
    if m.usage.None? {
      assert events == m.rest == todo;
    }
    var i := 0;
    while i < |events|
      invariant i <= |events|
      invariant sent + todo == all
      invariant sent == Delivered(sent, accepts)
      invariant if i == 0 && m.usage.Some? then todo == Counted(a, m) + m.rest && seen == a.seen && totals == a.totals
                else todo == events[i..] && seen == After(a, Said(m)).seen && totals == After(a, Said(m)).totals
    {
      var event := events[i];
      var kept;
      kept, seen, totals := FilterEvent(event, m.kind, m.id, seen, totals);
      UsageComesFirst(m, i);
      i := i + 1;
      if kept == [] { continue; }
      assert kept == [kept[0]];
      Regroup(sent, kept, events[i..]);
      var ok: bool;
      ghost var soFar := sent;
      sent, ok := Send(sent, accepts, kept[0]);
      if !ok {
        Refused(soFar, kept[0], events[i..], accepts);
        left := true;
        return;
      }
      todo := events[i..];
    }
  }

  lemma UsageComesFirst(m: Message, i: nat)
    requires m.WellFormed() && i < |m.Events()|
    ensures m.Events()[i].TokenUsage? <==> i == 0 && m.usage.Some?
    ensures m.Events()[i..] == [m.Events()[i]] + m.Events()[i + 1..]
    ensures i == 0 && m.usage.Some? ==> m.Events()[1..] == m.rest
  {}

  /** Whether the loop notices, with these events sent after the opening, that the
      receiver has left: only a refused event of a line tells it. */
  ghost predicate Noticed(opening: seq<NormalizedEvent>, events: seq<NormalizedEvent>, accepts: Option<nat>) {
    events != [] && ReceiverLeaves(opening + events, accepts)
  }

  /** One more turn: what gets through, and whether the receiver is seen to refuse. */
  lemma OneMoreSent(opening: seq<NormalizedEvent>, events: seq<NormalizedEvent>, more: seq<NormalizedEvent>,
                    accepts: Option<nat>)
    requires !Noticed(opening, events, accepts)
    ensures var before := Delivered(opening + events, accepts);
            && before == Delivered(before, accepts)
            && Delivered(before + more, accepts) == Delivered(opening + (events + more), accepts)
            && (ReceiverLeaves(before + more, accepts) ==> Noticed(opening, events + more, accepts))
            && (before + more == Delivered(before + more, accepts) ==> !Noticed(opening, events + more, accepts))
  {
    assert opening + events + more == opening + (events + more);
    DeliverAfter(opening + events, more, accepts);
    if events == [] && more == [] {
      assert events + more == [];
    }
  }

  /** A receiver that has left misses the rest of the script. */
  lemma LeftMidway(opening: seq<NormalizedEvent>, events: seq<NormalizedEvent>, rest: seq<NormalizedEvent>,
                   accepts: Option<nat>)
    requires Noticed(opening, events, accepts)
    ensures Noticed(opening, events + rest, accepts)
    ensures Delivered(opening + events, accepts) == Delivered(opening + (events + rest), accepts)
  {
    assert opening + events + rest == opening + (events + rest);
    DeliverPastTheEnd(opening + events, rest, accepts);
  }

  /** The handling of one line in the loop; what the driver has noted is kept in
      one record. */
  method ReadLine(env: Environment, p: LineReader, line: string, accepts: Option<nat>, before: seq<NormalizedEvent>,
                  a: Account, ghost opening: seq<NormalizedEvent>, ghost events: seq<NormalizedEvent>)
    returns (sent: seq<NormalizedEvent>, left: bool, now: Account)
    requires Reads(p)
    requires before == Delivered(opening + events, accepts) && !Noticed(opening, events, accepts)
    ensures var step := Observe(env, p, Line(line));
            && sent == Delivered(opening + (events + SentFor(a, step)), accepts)
            && left == Noticed(opening, events + SentFor(a, step), accepts)
            && (!left ==> now == After(a, step))
  {
    sent, left, now := before, false, a;
    ghost var step := Observe(env, p, Line(line));
    OneMoreSent(opening, events, SentFor(a, step), accepts);
    if SentFor(a, step) == [] {
      NothingMore(before, events);
    }
    if line == "" { return; }
    var value := env.parse(line);
    if value.None? {
      now := a.(unparsed := a.unparsed + [line]);
      return;
    }
    var m := p(value.value);
    assert m.WellFormed();
    now := a.(structured := true);
    if m.kind == ControlRequest { return; }
    if m.kind == Result {
      now := now.(sawResult := true, inputOpen := false);
    }
    var seen, totals;
    sent, left, seen, totals := SendMessage(before, accepts, m, a.seen, a.totals, a);
    now := now.(seen := seen, totals := totals);
  }

  lemma NothingMore<T>(a: seq<T>, b: seq<T>)
    ensures a + [] == a && b + [] == b
  {}

  /** One arm of the `select!`: whether it leaves the loop, and how. */
  method TakeTurn(env: Environment, p: LineReader, t: Turn, accepts: Option<nat>, before: seq<NormalizedEvent>,
                  a: Account, ghost opening: seq<NormalizedEvent>, ghost events: seq<NormalizedEvent>)
    returns (sent: seq<NormalizedEvent>, leave: bool, cancelled: bool, timer: Option<Turn>, now: Account)
    requires Reads(p)
    requires before == Delivered(opening + events, accepts) && !Noticed(opening, events, accepts)
    ensures Stops(a, t) ==>
              leave && sent == before && now == a && cancelled == CutsShort(t) && timer == TimerOf(t)
    ensures !Stops(a, t) ==>
              var all := events + SentFor(a, Observe(env, p, t));
              && sent == Delivered(opening + all, accepts)
              && leave == cancelled == Noticed(opening, all, accepts) && timer.None?
              && (!leave ==> now == After(a, Observe(env, p, t)))
  {
    sent, leave, cancelled, timer, now := before, false, false, None, a;
    NothingMore(before, events);
    match t {
      case Line(trimmed) =>
        sent, cancelled, now := ReadLine(env, p, trimmed, accepts, before, a, opening, events);
        leave := cancelled;
      case OutputEnds =>
        leave := true;
      case Steer(delivered) =>
        leave := a.inputOpen && !delivered;
      case StartupTimeout =>
        if !a.structured {
          leave, cancelled, timer := true, true, Some(t);
        }
      case _ =>
        leave, cancelled, timer := true, true, TimerOf(t);
    }
  }

  /** The `select!` loop of `drive`. A list of turns that runs out is the end of the
      output. */
  method ReadOutput(env: Environment, p: LineReader, turns: seq<Turn>, input: bool, accepts: Option<nat>,
                    ghost opening: seq<NormalizedEvent>, before: seq<NormalizedEvent>)
    returns (sent: seq<NormalizedEvent>, cancelled: bool, timer: Option<Turn>, a: Account)
    requires Reads(p) && before == Delivered(opening, accepts)
    ensures var o := Run(Driver(env, p, input), turns, 0, Driver(env, p, input).start, []);
            && sent == Delivered(opening + o.events, accepts)
            && (if Noticed(opening, o.events, accepts)
                then cancelled && timer.None?
                else && cancelled == CutsShort(StopperAt(turns, o.stop))
                     && timer == TimerOf(StopperAt(turns, o.stop)) && a == o.state)
  {
    ghost var m := Driver(env, p, input);
    sent, cancelled, timer := before, false, None;
    a := Account(input, false, false, {}, Tokens(0, 0), []);
    ghost var o := Run(m, turns, 0, m.start, []);
    ghost var events := [];
    NothingMore(opening, opening);
    var i := 0;
    while i < |turns|
      invariant i <= |turns|
      invariant Run(m, turns, i, a, events) == o
      invariant !cancelled && timer.None?
      invariant sent == Delivered(opening + events, accepts) && !Noticed(opening, events, accepts)
    {
      var leave;
      ghost var was := a;
      sent, leave, cancelled, timer, a := TakeTurn(env, p, turns[i], accepts, sent, a, opening, events);
      if leave {
        if !Stops(was, turns[i]) {
          ghost var now := events + m.emits(was, turns[i]);
          ghost var rest := RunGrows(m, turns, i + 1, m.next(was, turns[i]), now);
          LeftMidway(opening, now, rest, accepts);
        }
        return;
      }
      events := events + m.emits(was, turns[i]);
      i := i + 1;
    }
  }

  /** What follows the loop: how the process exited is told. */
  method Close(env: Environment, turns: seq<Turn>, cancelled: bool, timer: Option<Turn>, a: Account, exitOk: bool,
               accepts: Option<nat>, before: seq<NormalizedEvent>, ghost all: seq<NormalizedEvent>,
               ghost o: Outcome<Account, Turn, NormalizedEvent>)
    returns (sent: seq<NormalizedEvent>, finalStatus: SessionStatus)
    requires before == Delivered(all, accepts)
    requires || (ReceiverLeaves(all, accepts) && cancelled && timer.None?)
             || (&& cancelled == CutsShort(StopperAt(turns, o.stop))
                 && timer == TimerOf(StopperAt(turns, o.stop)) && a == o.state)
    ensures sent == Delivered(all + Ending(env, turns, o, exitOk), accepts)
    ensures finalStatus == FinalStatus(cancelled, exitOk)
  {
    var ok: bool;
    finalStatus := if cancelled then Interrupted else if exitOk then Completed else Failed;
    sent := before;
    var diagnostics := env.diagnostics(a.unparsed);
    if timer.Some? {
      sent, ok := Send(sent, accepts, Error(WithDiagnostics(TimeoutMessage(timer.value), diagnostics), true));
    }
    if !cancelled && !exitOk && !a.sawResult && diagnostics != "" {
      sent, ok := Send(sent, accepts, Failure(env, diagnostics));
    }
    sent, ok := Send(sent, accepts, SessionEnded(finalStatus));
    ghost var stopper := StopperAt(turns, o.stop);
    DeliverScript(all, ClosingFor(env, o.state, stopper, exitOk), SessionEnded(FinalStatus(CutsShort(stopper), exitOk)), accepts);
  }

  /** `drive`: the opening, the loop, the ending. */
  method Drive(env: Environment, p: LineReader, turns: seq<Turn>, stdin: Option<bool>, exitOk: bool, accepts: Option<nat>)
    returns (sent: seq<NormalizedEvent>, finalStatus: SessionStatus)
    requires Reads(p)
    ensures sent == Delivered(Script(env, p, turns, stdin, exitOk), accepts)
    ensures var m := Driver(env, p, stdin.Some?); var stop := StopAt(m, turns);
            var left := Noticed(Opening(stdin), EventsOf(m, turns, stop), accepts);
            finalStatus == FinalStatus(left || CutsShort(StopperAt(turns, stop)), exitOk)
  {
    var ok, cancelled, timer, a;
    sent := [];
    if stdin == Some(false) {
      sent, ok := Send(sent, accepts, Error("Claude stream input closed before the session started", false));
    }
    sent, cancelled, timer, a := ReadOutput(env, p, turns, stdin.Some?, accepts, Opening(stdin), sent);
    ghost var m := Driver(env, p, stdin.Some?);
    RunStops(m, turns, 0);
    ghost var o := Run(m, turns, 0, m.start, []);
    sent, finalStatus := Close(env, turns, cancelled, timer, a, exitOk, accepts, sent, Opening(stdin) + o.events, o);
  }

  // ----------------------------------------------------------- token conservation

  datatype Component = Input | Output

  function Of(t: Tokens, c: Component): nat {
    if c.Input? then t.input else t.output
  }

  function Amount(e: NormalizedEvent, c: Component): nat {
    if e.TokenUsage? then Of(Tokens(e.inputTokens, e.outputTokens), c) else 0
  }

  /** Tokens a list of events reports in all. */
  function Sum(events: seq<NormalizedEvent>, c: Component): nat {
    if events == [] then 0 else Amount(events[0], c) + Sum(events[1..], c)
  }

  lemma {:induction false} SumAppend(a: seq<NormalizedEvent>, b: seq<NormalizedEvent>, c: Component)
    ensures Sum(a + b, c) == Sum(a, c) + Sum(b, c)
  {
    if a == [] {
      assert a + b == b;
    } else {
      assert (a + b)[1..] == a[1..] + b;
      SumAppend(a[1..], b, c);
    }
  }

  lemma {:induction false} NoUsageNoTokens(events: seq<NormalizedEvent>, c: Component)
    requires forall e :: e in events ==> !e.TokenUsage?
    ensures Sum(events, c) == 0
  {
    if events != [] {
      NoUsageNoTokens(events[1..], c);
    }
  }

  function Capped(n: nat): nat {
    if n <= U64_MAX then n else U64_MAX
  }

  /** Tokens a step reports for the first time. */
  function NewTokens(a: Account, s: Step, c: Component): nat {
    if FirstReport(a, s) then Of(s.m.usage.value, c) else 0
  }

  /** The figure a result states. */
  function ResultFigure(s: Step, c: Component): nat {
    if s.Said? && s.m.kind == Result && s.m.usage.Some? then Of(s.m.usage.value, c) else 0
  }

  /** One step of the accounting: `sum` is the exact sum the totals stand for. */
  lemma StepConserves(a: Account, s: Step, sum: nat, c: Component)
    requires s.Said? ==> s.m.WellFormed()
    requires Of(a.totals, c) == Capped(sum)
    ensures Of(After(a, s).totals, c) == Capped(sum + NewTokens(a, s, c))
    ensures Sum(SentFor(a, s), c) == NewTokens(a, s, c) + SaturatingSub(ResultFigure(s, c), sum)
  {
    if s.Said? {
      SumAppend(Counted(a, s.m), s.m.rest, c);
      NoUsageNoTokens(s.m.rest, c);
      var counted := Counted(a, s.m);
      if counted != [] {
        assert counted == [counted[0]] && counted[1..] == [];
      }
    }
  }

  function StateAt(env: Environment, p: LineReader, turns: seq<Turn>, input: bool, n: nat): Account
    requires n <= |turns|
  {
    StateOf(Driver(env, p, input), turns, n)
  }

  /** Tokens of the first report of every message, and of every report without a
      message id, in the first `n` turns: an exact sum. */
  function FirstReports(env: Environment, p: LineReader, turns: seq<Turn>, input: bool, n: nat, c: Component): nat
    requires n <= |turns|
  {
    if n == 0 then 0 else
      FirstReports(env, p, turns, input, n - 1, c)
      + NewTokens(StateAt(env, p, turns, input, n - 1), Observe(env, p, turns[n - 1]), c)
  }

  /** What each result states beyond the first reports before it. */
  function Excess(env: Environment, p: LineReader, turns: seq<Turn>, input: bool, n: nat, c: Component): nat
    requires n <= |turns|
  {
    if n == 0 then 0 else
      Excess(env, p, turns, input, n - 1, c)
      + SaturatingSub(ResultFigure(Observe(env, p, turns[n - 1]), c), FirstReports(env, p, turns, input, n - 1, c))
  }

  lemma {:induction false} LoopConserves(env: Environment, p: LineReader, turns: seq<Turn>, input: bool, n: nat, c: Component)
    requires Reads(p) && n <= |turns|
    ensures Of(StateAt(env, p, turns, input, n).totals, c) == Capped(FirstReports(env, p, turns, input, n, c))
    ensures Sum(EventsOf(Driver(env, p, input), turns, n), c)
            == FirstReports(env, p, turns, input, n, c) + Excess(env, p, turns, input, n, c)
  {
    if n > 0 {
      LoopConserves(env, p, turns, input, n - 1, c);
      var m := Driver(env, p, input);
      var a, s := StateAt(env, p, turns, input, n - 1), Observe(env, p, turns[n - 1]);
      assert s.Said? ==> s.m.WellFormed();
      StepConserves(a, s, FirstReports(env, p, turns, input, n - 1, c), c);
      SumAppend(EventsOf(m, turns, n - 1), SentFor(a, s), c);
    }
  }

  lemma OpeningAndEndingReportNothing(env: Environment, turns: seq<Turn>, stdin: Option<bool>,
                                      o: Outcome<Account, Turn, NormalizedEvent>, exitOk: bool, c: Component)
    ensures Sum(Opening(stdin), c) == 0 && Sum(Ending(env, turns, o, exitOk), c) == 0
  {
    NoUsageNoTokens(Opening(stdin), c);
    NoUsageNoTokens(Ending(env, turns, o, exitOk), c);
  }

  lemma SumOfThree(a: seq<NormalizedEvent>, b: seq<NormalizedEvent>, d: seq<NormalizedEvent>, c: Component)
    ensures Sum(a + b + d, c) == Sum(a, c) + Sum(b, c) + Sum(d, c)
  {
    SumAppend(a, b, c);
    SumAppend(a + b, d, c);
  }

  /** In every run, whatever ends it, the tokens reported are the first reports
      plus what each result states beyond them, although the running totals
      saturate at 64 bits. */
  lemma UsageIsConserved(env: Environment, p: LineReader, turns: seq<Turn>, stdin: Option<bool>, exitOk: bool, c: Component)
    requires Reads(p)
    ensures var stop := StopAt(Driver(env, p, stdin.Some?), turns);
            Sum(Script(env, p, turns, stdin, exitOk), c)
            == FirstReports(env, p, turns, stdin.Some?, stop, c) + Excess(env, p, turns, stdin.Some?, stop, c)
  {
    var m := Driver(env, p, stdin.Some?);
    var stop := StopAt(m, turns);
    var o := Outcome(StateOf(m, turns, stop), EventsOf(m, turns, stop), stop);
    LoopConserves(env, p, turns, stdin.Some?, stop, c);
    OpeningAndEndingReportNothing(env, turns, stdin, o, exitOk, c);
    SumOfThree(Opening(stdin), EventsOf(m, turns, stop), Ending(env, turns, o, exitOk), c);
  }

  lemma {:induction false} NoResultNoExcess(env: Environment, p: LineReader, turns: seq<Turn>, input: bool,
                                            from: nat, n: nat, c: Component)
    requires from <= n <= |turns|
    requires forall i :: from <= i < n ==> ResultFigure(Observe(env, p, turns[i]), c) == 0
    ensures Excess(env, p, turns, input, n, c) == Excess(env, p, turns, input, from, c)
    decreases n
  {
    if from < n {
      NoResultNoExcess(env, p, turns, input, from, n - 1, c);
    }
  }

  /** A stream with one result reports the first reports and what that result
      states beyond those before it: when the result closes the stream, that is the
      larger, per component, of the result's figure and the sum of first reports. */
  lemma ResultTopsUp(env: Environment, p: LineReader, turns: seq<Turn>, stdin: Option<bool>, exitOk: bool, c: Component, r: nat)
    requires Reads(p) && r < StopAt(Driver(env, p, stdin.Some?), turns)
    requires Observe(env, p, turns[r]).Said? && Observe(env, p, turns[r]).m.kind == Result
    requires forall i :: 0 <= i < StopAt(Driver(env, p, stdin.Some?), turns) && i != r ==>
                           ResultFigure(Observe(env, p, turns[i]), c) == 0
    ensures var stop := StopAt(Driver(env, p, stdin.Some?), turns);
            var figure := ResultFigure(Observe(env, p, turns[r]), c);
            var sum := FirstReports(env, p, turns, stdin.Some?, r, c);
            var total := Sum(Script(env, p, turns, stdin, exitOk), c);
            && total == FirstReports(env, p, turns, stdin.Some?, stop, c) + SaturatingSub(figure, sum)
            && (stop == r + 1 ==> total == if figure >= sum then figure else sum)
  {
    var stop := StopAt(Driver(env, p, stdin.Some?), turns);
    UsageIsConserved(env, p, turns, stdin, exitOk, c);
    NoResultNoExcess(env, p, turns, stdin.Some?, 0, r, c);
    NoResultNoExcess(env, p, turns, stdin.Some?, r + 1, stop, c);
  }

  /** An id is noted exactly when an earlier line stated usage for it, so that of
      the reports with an id exactly the first is counted. */
  lemma {:induction false} SeenMeansStated(env: Environment, p: LineReader, turns: seq<Turn>, input: bool, n: nat, id: string)
    requires n <= |turns|
    ensures id in StateAt(env, p, turns, input, n).seen
            <==> exists i :: 0 <= i < n && StatesUsage(Observe(env, p, turns[i])) && Observe(env, p, turns[i]).m.id == Some(id)
  {
    if n > 0 {
      SeenMeansStated(env, p, turns, input, n - 1, id);
    }
  }

  // ---------------------------------------------------------------- how runs end

  lemma {:induction false} LoopNeverEnds(env: Environment, p: LineReader, turns: seq<Turn>, input: bool, n: nat)
    requires Reads(p) && n <= |turns|
    ensures NoEnding(EventsOf(Driver(env, p, input), turns, n))
  {
    if n > 0 {
      LoopNeverEnds(env, p, turns, input, n - 1);
      assert Observe(env, p, turns[n - 1]).Said? ==> Observe(env, p, turns[n - 1]).m.WellFormed();
    }
  }

  /** In every run, whatever the receiver took, the end of the session is told at
      most once, nothing follows it, and it is told to every receiver that stays. */
  lemma SessionEndsOnce(env: Environment, p: LineReader, turns: seq<Turn>, stdin: Option<bool>, exitOk: bool, accepts: Option<nat>)
    requires Reads(p)
    ensures var script := Script(env, p, turns, stdin, exitOk);
            var received := Delivered(script, accepts);
            && (forall i :: 0 <= i < |received| ==> (received[i].SessionEnded? <==> i == |script| - 1))
            && (accepts.None? ==> received != [] && received[|received| - 1].SessionEnded?)
  {
    var m := Driver(env, p, stdin.Some?);
    var stop := StopAt(m, turns);
    LoopNeverEnds(env, p, turns, stdin.Some?, stop);
    var closing := ClosingFor(env, StateOf(m, turns, stop), StopperAt(turns, stop), exitOk);
    var end := SessionEnded(FinalStatus(CutsShort(StopperAt(turns, stop)), exitOk));
    EndsOnce(Opening(stdin) + EventsOf(m, turns, stop), closing, end, accepts);
  }

  lemma EndsOnce(sent: seq<NormalizedEvent>, closing: seq<NormalizedEvent>, end: NormalizedEvent, accepts: Option<nat>)
    requires NoEnding(sent) && NoEnding(closing) && end.SessionEnded?
    ensures var script := sent + (closing + [end]);
            var received := Delivered(script, accepts);
            && (forall i :: 0 <= i < |received| ==> (received[i].SessionEnded? <==> i == |script| - 1))
            && (accepts.None? ==> received != [] && received[|received| - 1].SessionEnded?)
  {
    assert NoEnding(sent + closing);
    assert sent + (closing + [end]) == sent + closing + [end];
  }
}
