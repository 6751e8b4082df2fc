/** What the two exec drivers share: the JSON values agents print, the normalised
    events, the channel they go to and the turns of a driver's `select!` loop
    (crates/am-agents/src/lib.rs, runtime.rs, codex.rs, claude.rs). */
module Agents {
  import opened Wrappers

  // --------------------------------------------------------------- JSON values

  const U64_MAX: nat := 0xFFFF_FFFF_FFFF_FFFF
  const I64_MAX: nat := 0x7FFF_FFFF_FFFF_FFFF

  /** `serde_json::Value`; a number that is not a 64-bit integer is a `Float`. */
  datatype Value =
    | Null
    | Bool(truth: bool)
    | Int(number: int)
    | Float(real)
    | Str(text: string)
    | Arr(items: seq<Value>)
    | Obj(fields: map<string, Value>)
  {
    function Get(key: string): Option<Value> {
      if Obj? && key in fields then Some(fields[key]) else None
    }

    function Field(key: string): Option<string> {
      AsStr(Get(key))
    }
  }

  function GetIn(v: Option<Value>, key: string): Option<Value> {
    if v.Some? then v.value.Get(key) else None
  }

  function AsStr(v: Option<Value>): Option<string> {
    if v.Some? && v.value.Str? then Some(v.value.text) else None
  }

  function AsU64(v: Option<Value>): nat {
    if v.Some? && v.value.Int? && 0 <= v.value.number <= U64_MAX then v.value.number else 0
  }

  /** `as_i64().unwrap_or(0).max(0)`. */
  function AsI64(v: Option<Value>): nat {
    if v.Some? && v.value.Int? && 0 <= v.value.number <= I64_MAX then v.value.number else 0
  }

  function Items(v: Option<Value>): seq<Value> {
    if v.Some? && v.value.Arr? then v.value.items else []
  }

  predicate IsTrue(v: Option<Value>) {
    v == Some(Bool(true))
  }

  function OrElse<T>(first: Option<T>, second: Option<T>): Option<T> {
    if first.Some? then first else second
  }

  function Default<T>(o: Option<T>, d: T): T {
    if o.Some? then o.value else d
  }

  // -------------------------------------------------------------------- events

  type Time = nat

  datatype ChangeKind = Created | Deleted | Modified

  datatype SessionStatus = Completed | Failed | Interrupted

  datatype NormalizedEvent =
    | SessionStarted(sessionId: string)
    | AssistantText(text: string)
    | AssistantTextDelta(delta: string)
    | ToolUse(callId: Option<string>, name: string, input: Value)
    | ToolResult(callId: Option<string>, ok: bool, summary: string)
    | FileChanged(path: string, change: ChangeKind)
    | TokenUsage(inputTokens: nat, outputTokens: nat)
    | AwaitingApproval(detail: string)
    | UsageLimitReached(resetAt: Option<Time>)
    | NetworkUnavailable(message: string)
    | Error(message: string, retryable: bool)
    | SessionEnded(status: SessionStatus)

  /** Code outside the two drivers. `parse` is `serde_json::from_str` on a trimmed
      line, `diagnostics` the trimmed text kept of the given unparsed lines and of
      stderr. */
  datatype Environment = Environment(
    parse: string -> Option<Value>,
    render: Value -> string,
    usageLimit: string -> Option<Option<Time>>,
    networkError: string -> Option<string>,
    diagnostics: seq<string> -> string)

  /** The characters Rust's `trim` removes. */
  predicate IsWhitespace(c: char) {
    || c in " \t\n\r\U{000B}\U{000C}\U{0085}\U{00A0}\U{1680}"
    || '\U{2000}' <= c <= '\U{200A}'
    || c in {'\U{2028}', '\U{2029}', '\U{202F}', '\U{205F}', '\U{3000}'}
  }

  predicate Blank(s: string) {
    forall c :: c in s ==> IsWhitespace(c)
  }

  function Truncate(s: string, max: nat): string {
    if |s| <= max then s else s[..max] + "\U{2026}"
  }

  function WithDiagnostics(message: string, diagnostics: string): string {
    if diagnostics == "" then message else message + "\n\n" + diagnostics
  }

  /** How a failure text is reported: a limit before a network fault before an
      error. */
  function Failure(env: Environment, message: string): NormalizedEvent {
    if env.usageLimit(message).Some? then UsageLimitReached(env.usageLimit(message).value)
    else if env.networkError(message).Some? then NetworkUnavailable(env.networkError(message).value)
    else Error(Truncate(message, 2000), false)
  }

  /** `push_error_or_limit`: a blank text that is neither limit nor network fault
      says nothing. */
  function ErrorOrLimit(env: Environment, message: string): (events: seq<NormalizedEvent>)
    ensures |events| <= 1 && (!Blank(message) ==> |events| == 1)
    ensures forall e :: e in events ==> e.UsageLimitReached? || e.NetworkUnavailable? || e.Error?
  {
    var failure := Failure(env, message);
    if failure.Error? && Blank(message) then [] else [failure]
  }

  // ------------------------------------------------------------------- a run

  /** One iteration of a driver's loop: what `select!` picked. `Steer(delivered)`
      is an instruction for Claude's stdin, delivered or not. */
  datatype Turn =
    | Line(trimmed: string)
    | OutputEnds
    | Cancel
    | HardTimeout
    | IdleTimeout
    | StartupTimeout
    | Steer(delivered: bool)

  function Structured(env: Environment, t: Turn): Option<Value> {
    if t.Line? && t.trimmed != "" then env.parse(t.trimmed) else None
  }

  /** Whether one of the first `n` turns was a line of JSON. */
  predicate SawStructured(env: Environment, turns: seq<Turn>, n: nat)
    requires n <= |turns|
  {
    n > 0 && (Structured(env, turns[n - 1]).Some? || SawStructured(env, turns, n - 1))
  }

  /** Those of the first `n` turns' lines that are not JSON: kept as diagnostics. */
  function Unparsed(env: Environment, turns: seq<Turn>, n: nat): seq<string>
    requires n <= |turns|
  {
    if n == 0 then [] else Unparsed(env, turns, n - 1) + UnparsedLine(env, turns[n - 1])
  }

  function UnparsedLine(env: Environment, t: Turn): seq<string> {
    if t.Line? && t.trimmed != "" && env.parse(t.trimmed).None? then [t.trimmed] else []
  }

  predicate IsTimer(t: Turn) {
    t.HardTimeout? || t.IdleTimeout? || t.StartupTimeout?
  }

  function TimerOf(t: Turn): Option<Turn> {
    if IsTimer(t) then Some(t) else None
  }

  function TimeoutMessage(timer: Turn): string {
    if timer == HardTimeout then "agent run timed out"
    else if timer == IdleTimeout then "agent produced no structured output before the idle timeout"
    else "agent did not produce structured output before the startup timeout"
  }

  predicate CutsShort(t: Turn) {
    t.Cancel? || IsTimer(t)
  }

  /** The event channel: its receiver takes `accepts` events and is then gone, or
      stays for all of them. */
  function Delivered(events: seq<NormalizedEvent>, accepts: Option<nat>): seq<NormalizedEvent> {
    if accepts.None? || |events| <= accepts.value then events else events[..accepts.value]
  }

  predicate ReceiverLeaves(events: seq<NormalizedEvent>, accepts: Option<nat>) {
    accepts.Some? && accepts.value < |events|
  }

  /** `tx.send`. */
  method Send(sent: seq<NormalizedEvent>, accepts: Option<nat>, e: NormalizedEvent)
    returns (now: seq<NormalizedEvent>, ok: bool)
    ensures ok <==> !ReceiverLeaves(sent + [e], accepts)
    ensures now == if ok then sent + [e] else sent
  {
    ok := accepts.None? || |sent| < accepts.value;
    now := if ok then sent + [e] else sent;
  }

  /** Sending one more event of a script, whether or not the receiver is there. */
  lemma DeliverOneMore(events: seq<NormalizedEvent>, e: NormalizedEvent, accepts: Option<nat>)
    ensures var before := Delivered(events, accepts);
            Delivered(events + [e], accepts)
            == (if ReceiverLeaves(before + [e], accepts) then before else before + [e])
  {
    if ReceiverLeaves(events, accepts) {
      assert (events + [e])[..accepts.value] == events[..accepts.value];
    } else if ReceiverLeaves(events + [e], accepts) {
      assert (events + [e])[..accepts.value] == events;
    }
  }

  /** Once the receiver has left, what a longer script would hold is not seen. */
  lemma DeliverPastTheEnd(events: seq<NormalizedEvent>, more: seq<NormalizedEvent>, accepts: Option<nat>)
    requires ReceiverLeaves(events, accepts)
    ensures Delivered(events + more, accepts) == Delivered(events, accepts)
    ensures ReceiverLeaves(events + more, accepts)
  {
    assert (events + more)[..accepts.value] == events[..accepts.value];
  }

  /** Sending more after what got through is sending more after what was meant. */
  lemma DeliverAfter(events: seq<NormalizedEvent>, more: seq<NormalizedEvent>, accepts: Option<nat>)
    ensures Delivered(Delivered(events, accepts) + more, accepts) == Delivered(events + more, accepts)
  {
    if ReceiverLeaves(events, accepts) {
      DeliverPastTheEnd(events, more, accepts);
      assert (Delivered(events, accepts) + more)[..accepts.value] == Delivered(events, accepts);
    }
  }

  /** Sending a script part by part: its parsed events, at most one closing event,
      the end. */
  lemma DeliverScript(parsed: seq<NormalizedEvent>, closing: seq<NormalizedEvent>, end: NormalizedEvent,
                      accepts: Option<nat>)
    requires |closing| <= 1
    ensures var first := Delivered(parsed, accepts);
            var second :=
              if closing == [] || ReceiverLeaves(first + closing, accepts) then first else first + closing;
            Delivered(parsed + closing + [end], accepts)
            == (if ReceiverLeaves(second + [end], accepts) then second else second + [end])
    ensures ReceiverLeaves(parsed, accepts) ==>
              forall other :: Delivered(parsed + closing + [end], accepts) == Delivered(parsed, accepts)
                              && ReceiverLeaves(Delivered(parsed, accepts) + [other], accepts)
  {
    if closing == [] {
      assert parsed + closing == parsed;
    } else {
      assert closing == [closing[0]];
      DeliverOneMore(parsed, closing[0], accepts);
    }
    DeliverOneMore(parsed + closing, end, accepts);
    if ReceiverLeaves(parsed, accepts) {
      assert parsed + closing + [end] == parsed + (closing + [end]);
      DeliverPastTheEnd(parsed, closing + [end], accepts);
    }
  }

  predicate NoEnding(events: seq<NormalizedEvent>) {
    forall e :: e in events ==> !e.SessionEnded?
  }
}
