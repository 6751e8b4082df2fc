/** The client of the local daemon: the handshake, its hand-off to the message
    reader, and requests by id (src/node/daemonClient.ts). */
module DaemonClients {
  import opened Wrappers
  import opened Text

  type Payload = string

  /** A parsed server message; an answer has a payload, an error, or neither. */
  datatype Message =
    | Event(event: Payload)
    | EventGap(gap: Payload)
    | Response(id: nat, ok: Option<Payload>, error: Option<string>)

  datatype Outcome = Resolved(payload: Payload) | Rejected(reason: string)

  datatype Emission = Emitted(event: Payload) | Gap(gap: Payload) | ParseError(line: string) | Disconnected(reason: string)

  /** JSON: server messages, and whether an acknowledgement accepts the client. */
  datatype Codec = Codec(parse: string -> Option<Message>, accepts: string -> bool)

  /** `settled` holds what each finished request was told. */
  datatype Client = Client(nextId: nat, pending: set<nat>, buffer: string, settled: map<nat, Outcome>, emitted: seq<Emission>)

  const NEW_CLIENT := Client(1, {}, "", map[], [])

  function Answer(m: Message): Outcome
    requires m.Response?
  {
    if m.error.Some? && m.error.value != "" then Rejected(m.error.value)
    else if m.ok.Some? then Resolved(m.ok.value)
    else Rejected("empty daemon response")
  }

  function OnLine(c: Codec, s: Client, line: string): Client {
    var m := c.parse(line);
    if m.None? then s.(emitted := s.emitted + [ParseError(line)])
    else
      match m.value
      case Event(e) => s.(emitted := s.emitted + [Emitted(e)])
      case EventGap(g) => s.(emitted := s.emitted + [Gap(g)])
      case Response(id, _, _) =>
        if id !in s.pending then s
        else s.(pending := s.pending - {id}, settled := s.settled[id := Answer(m.value)])
  }

  function OnLines(c: Codec, s: Client, lines: seq<string>): Client
    decreases |lines|
  {
    if lines == [] then s
    else
      var line := Trim(lines[0]);
      OnLines(c, if line == "" then s else OnLine(c, s, line), lines[1..])
  }

  function OnData(c: Codec, s: Client, chunk: string): Client {
    var text := s.buffer + chunk;
    OnLines(c, s, CompleteLines(text)).(buffer := Remainder(text))
  }

  function FailAll(s: Client, reason: string): Client {
    s.(pending := {}, settled := s.settled + (map id | id in s.pending :: Rejected(reason)),
       emitted := s.emitted + [Disconnected(reason)])
  }

  // ------------------------------------------------------------------ chunking

  lemma {:induction false} LinesKeepBuffer(c: Codec, s: Client, lines: seq<string>, buffer: string)
    ensures OnLines(c, s.(buffer := buffer), lines) == OnLines(c, s, lines).(buffer := buffer)
    ensures OnLines(c, s, lines).buffer == s.buffer
    decreases |lines|
  {
    if lines != [] {
      var line := Trim(lines[0]);
      LinesKeepBuffer(c, if line == "" then s else OnLine(c, s, line), lines[1..], buffer);
    }
  }

  lemma {:induction false} LinesInParts(c: Codec, s: Client, a: seq<string>, b: seq<string>)
    ensures OnLines(c, s, a + b) == OnLines(c, OnLines(c, s, a), b)
    decreases |a|
  {
    if a == [] {
      assert a + b == b;
    } else {
      var line := Trim(a[0]);
      assert (a + b)[1..] == a[1..] + b;
      LinesInParts(c, if line == "" then s else OnLine(c, s, line), a[1..], b);
    }
  }

  /** Data in two chunks is data in one. */
  lemma ChunksJoin(c: Codec, s: Client, a: string, b: string)
    ensures OnData(c, OnData(c, s, a), b) == OnData(c, s, a + b)
  {
    var text := s.buffer + a;
    assert text + b == s.buffer + (a + b);
    LinesAppend(text, b);
    var done := OnLines(c, s, CompleteLines(text));
    LinesKeepBuffer(c, done, CompleteLines(Remainder(text) + b), Remainder(text));
    LinesInParts(c, s, CompleteLines(text), CompleteLines(Remainder(text) + b));
  }

  /** The client once its buffer has no complete line left. */
  function Drained(c: Codec, s: Client): Client {
    OnLines(c, s, CompleteLines(s.buffer)).(buffer := Remainder(s.buffer))
  }

  lemma DrainIsOnData(c: Codec, s: Client, chunk: string)
    ensures Drained(c, s.(buffer := s.buffer + chunk)) == OnData(c, s, chunk)
  {
    LinesKeepBuffer(c, s, CompleteLines(s.buffer + chunk), s.buffer + chunk);
  }

  /** One round of the loop of `onData`. */
  lemma DrainOne(c: Codec, s: Client)
    requires '\n' in s.buffer
    ensures var i := IndexOf(s.buffer, '\n');
            var line, cut := Trim(s.buffer[..i]), s.(buffer := s.buffer[i + 1..]);
            Drained(c, TakeLine(c, cut, line)) == Drained(c, s)
  {
    var i := IndexOf(s.buffer, '\n');
    var first, rest := s.buffer[..i], s.buffer[i + 1..];
    FirstLine(s.buffer);
    LineThenLines(c, s, first, CompleteLines(rest));
    LineKeepsBuffer(c, s, Trim(first), rest);
    LinesKeepBuffer(c, TakeLine(c, s, Trim(first)), CompleteLines(rest), rest);
  }

  function TakeLine(c: Codec, s: Client, line: string): Client {
    if line == "" then s else OnLine(c, s, line)
  }

  lemma LineThenLines(c: Codec, s: Client, first: string, rest: seq<string>)
    ensures OnLines(c, s, [first] + rest) == OnLines(c, TakeLine(c, s, Trim(first)), rest)
  {
    assert ([first] + rest)[1..] == rest;
  }

  lemma LineKeepsBuffer(c: Codec, s: Client, line: string, buffer: string)
    ensures TakeLine(c, s.(buffer := buffer), line) == TakeLine(c, s, line).(buffer := buffer)
  {}

  // ------------------------------------------------------------- the handshake

  datatype Stream = Handshaking(buffer: string) | Refused | Ready(client: Client)

  /** A chunk: for the handshake until its line is complete, for the client after. */
  function Receive(c: Codec, s: Stream, chunk: string): Stream {
    match s
    case Handshaking(buffer) =>
      var text := buffer + chunk;
      if '\n' !in text then Handshaking(text)
      else
        var i := IndexOf(text, '\n');
        if !c.accepts(Trim(text[..i])) then Refused
        else if text[i + 1..] == "" then Ready(NEW_CLIENT)
        else Ready(OnData(c, NEW_CLIENT, text[i + 1..]))
    case Refused => s
    case Ready(client) => Ready(OnData(c, client, chunk))
  }

  function ReceiveAll(c: Codec, s: Stream, chunks: seq<string>): Stream
    decreases |chunks|
  {
    if chunks == [] then s else ReceiveAll(c, Receive(c, s, chunks[0]), chunks[1..])
  }

  /** The whole stream at once: the client reads what follows the first line. */
  function Whole(c: Codec, text: string): Stream {
    if '\n' !in text then Handshaking(text)
    else if !c.accepts(Trim(text[..IndexOf(text, '\n')])) then Refused
    else Ready(OnData(c, NEW_CLIENT, text[IndexOf(text, '\n') + 1..]))
  }

  lemma FirstLineStays(text: string, chunk: string)
    requires '\n' in text
    ensures '\n' in text + chunk && IndexOf(text + chunk, '\n') == IndexOf(text, '\n')
    ensures var i := IndexOf(text, '\n');
            (text + chunk)[..i] == text[..i] && (text + chunk)[i + 1..] == text[i + 1..] + chunk
  {
    var i := IndexOf(text, '\n');
    var all := text + chunk;
    assert all[i] == '\n' && all[..i] == text[..i];
    FirstIs(all, '\n', i);
  }

  lemma ReceiveIsWhole(c: Codec, text: string, chunk: string)
    ensures Receive(c, Whole(c, text), chunk) == Whole(c, text + chunk)
  {
    if '\n' in text {
      ReceiveBehindLine(c, text, chunk);
    } else {
      ReceiveFirstLine(c, text, chunk);
    }
  }

  lemma ReceiveFirstLine(c: Codec, text: string, chunk: string)
    requires '\n' !in text
    ensures Receive(c, Handshaking(text), chunk) == Whole(c, text + chunk)
  {
    var all := text + chunk;
    if '\n' in all && c.accepts(Trim(all[..IndexOf(all, '\n')])) {
      var rest := all[IndexOf(all, '\n') + 1..];
      if rest == "" {
        NoDataNoChange(c);
      }
      assert Whole(c, all) == Ready(OnData(c, NEW_CLIENT, rest));
    }
  }

  lemma ReceiveBehindLine(c: Codec, text: string, chunk: string)
    requires '\n' in text
    ensures Receive(c, Whole(c, text), chunk) == Whole(c, text + chunk)
  {
    FirstLineStays(text, chunk);
    var rest := text[IndexOf(text, '\n') + 1..];
    ChunksJoin(c, NEW_CLIENT, rest, chunk);
    assert Whole(c, text + chunk)
        == if c.accepts(Trim(text[..IndexOf(text, '\n')])) then Ready(OnData(c, NEW_CLIENT, rest + chunk)) else Refused;
  }

  lemma NoDataNoChange(c: Codec)
    ensures OnData(c, NEW_CLIENT, "") == NEW_CLIENT
  {
    assert NEW_CLIENT.buffer + "" == "";
  }

  lemma {:induction false} ReceiveAllIsWhole(c: Codec, text: string, chunks: seq<string>)
    ensures ReceiveAll(c, Whole(c, text), chunks) == Whole(c, text + Concat(chunks))
    decreases |chunks|
  {
    if chunks == [] {
      assert text + "" == text;
    } else {
      ReceiveIsWhole(c, text, chunks[0]);
      ReceiveAllIsWhole(c, text + chunks[0], chunks[1..]);
      ConcatCons(text, chunks);
    }
  }

  /** However the acknowledgement and the messages behind it are cut into chunks,
      the client reads exactly the bytes after the acknowledgement's line. */
  lemma HandOffIsSeamless(c: Codec, chunks: seq<string>)
    ensures ReceiveAll(c, Handshaking(""), chunks) == Whole(c, Concat(chunks))
  {
    ReceiveAllIsWhole(c, "", chunks);
    assert "" + Concat(chunks) == Concat(chunks);
  }

  // ---------------------------------------------------------------- requests

  datatype Step = Request | WriteFailed(id: nat, reason: string) | Data(chunk: string) | Closed(reason: string)

  function Next(c: Codec, s: Client, step: Step): Client {
    match step
    case Request => s.(nextId := s.nextId + 1, pending := s.pending + {s.nextId})
    case WriteFailed(id, reason) =>
      if id !in s.pending then s else s.(pending := s.pending - {id}, settled := s.settled[id := Rejected(reason)])
    case Data(chunk) => OnData(c, s, chunk)
    case Closed(reason) => FailAll(s, reason)
  }

  function After(c: Codec, s: Client, steps: seq<Step>, n: nat): Client
    requires n <= |steps|
  {
    if n == 0 then s else Next(c, After(c, s, steps, n - 1), steps[n - 1])
  }

  /** Every id handed out is either pending or settled. */
  ghost predicate Inv(s: Client) {
    && s.nextId >= 1
    && (forall id :: id in s.pending || id in s.settled <==> 1 <= id < s.nextId)
    && s.pending !! s.settled.Keys
  }

  /** What one step may do to requests: new ones get new ids, pending ones may be
      settled, settled ones stay as they are. */
  ghost predicate Keeps(s: Client, t: Client) {
    && s.nextId <= t.nextId
    && (forall id :: id in s.settled ==> id in t.settled && t.settled[id] == s.settled[id])
  }

  lemma LineKeeps(c: Codec, s: Client, line: string)
    requires Inv(s)
    ensures var t := OnLine(c, s, line); Inv(t) && Keeps(s, t) && t.nextId == s.nextId
    ensures var t := OnLine(c, s, line);
            forall id :: id in t.settled && id !in s.settled ==>
              c.parse(line).Some? && c.parse(line).value.Response? && c.parse(line).value.id == id
              && t.settled[id] == Answer(c.parse(line).value)
  {}

  predicate Answers(c: Codec, line: string, id: nat, o: Outcome) {
    var m := c.parse(Trim(line));
    m.Some? && m.value.Response? && m.value.id == id && Answer(m.value) == o
  }

  predicate AnsweredIn(c: Codec, lines: seq<string>, id: nat, o: Outcome) {
    exists line :: line in lines && Answers(c, line, id, o)
  }

  lemma {:induction false} LinesKeep(c: Codec, s: Client, lines: seq<string>)
    requires Inv(s)
    ensures var t := OnLines(c, s, lines); Inv(t) && Keeps(s, t) && t.nextId == s.nextId
    ensures var t := OnLines(c, s, lines);
            forall id :: id in t.settled && id !in s.settled ==> AnsweredIn(c, lines, id, t.settled[id])
    decreases |lines|
  {
    if lines != [] {
      var line := Trim(lines[0]);
      var one := if line == "" then s else OnLine(c, s, line);
      LineKeeps(c, s, line);
      LinesKeep(c, one, lines[1..]);
      var t := OnLines(c, s, lines);
      forall id | id in t.settled && id !in s.settled ensures AnsweredIn(c, lines, id, t.settled[id]) {
        if id in one.settled {
          assert Answers(c, lines[0], id, t.settled[id]);
        } else {
          assert AnsweredIn(c, lines[1..], id, t.settled[id]);
          assert forall l :: l in lines[1..] ==> l in lines;
        }
      }
    }
  }

  lemma NextKeeps(c: Codec, s: Client, step: Step)
    requires Inv(s)
    ensures Inv(Next(c, s, step)) && Keeps(s, Next(c, s, step))
  {
    if step.Data? {
      LinesKeep(c, s, CompleteLines(s.buffer + step.chunk));
    }
  }

  lemma {:induction false} RunKeeps(c: Codec, steps: seq<Step>, n: nat)
    requires n <= |steps|
    ensures Inv(After(c, NEW_CLIENT, steps, n))
  {
    if n > 0 {
      RunKeeps(c, steps, n - 1);
      NextKeeps(c, After(c, NEW_CLIENT, steps, n - 1), steps[n - 1]);
    }
  }

  /** In every run a request gets an id that was never used, and is told its outcome
      at most once: later steps do not change it. */
  lemma {:induction false} OutcomesAreFinal(c: Codec, steps: seq<Step>, m: nat, n: nat)
    requires m <= n <= |steps|
    ensures var s, t := After(c, NEW_CLIENT, steps, m), After(c, NEW_CLIENT, steps, n); Keeps(s, t)
    ensures n < |steps| && steps[n].Request? ==>
              var t := After(c, NEW_CLIENT, steps, n);
              t.nextId !in t.pending && t.nextId !in t.settled && t.nextId in Next(c, t, Request).pending
  {
    RunKeeps(c, steps, n);
    if m < n {
      OutcomesAreFinal(c, steps, m, n - 1);
      RunKeeps(c, steps, n - 1);
      NextKeeps(c, After(c, NEW_CLIENT, steps, n - 1), steps[n - 1]);
    }
  }

  /** What arrives settles a request only by an answer with its own id, and a closed
      connection leaves none waiting. */
  lemma AnswersAreOwn(c: Codec, steps: seq<Step>, n: nat, id: nat)
    requires n < |steps| && id in After(c, NEW_CLIENT, steps, n).pending
    ensures var s, t := After(c, NEW_CLIENT, steps, n), After(c, NEW_CLIENT, steps, n + 1);
            && (steps[n].Data? && id in t.settled ==>
                  AnsweredIn(c, CompleteLines(s.buffer + steps[n].chunk), id, t.settled[id]))
            && (steps[n].Closed? ==> t.pending == {} && id in t.settled && t.settled[id] == Rejected(steps[n].reason))
  {
    RunKeeps(c, steps, n);
    var s := After(c, NEW_CLIENT, steps, n);
    if steps[n].Data? {
      DataAnswersAreOwn(c, s, steps[n].chunk, id);
    }
  }

  lemma DataAnswersAreOwn(c: Codec, s: Client, chunk: string, id: nat)
    requires Inv(s) && id in s.pending
    ensures var t := OnData(c, s, chunk);
            id in t.settled ==> AnsweredIn(c, CompleteLines(s.buffer + chunk), id, t.settled[id])
  {
    LinesKeep(c, s, CompleteLines(s.buffer + chunk));
  }

  // ------------------------------------------------------------------ the client

  /** `DaemonClient`: its fields, updated in place. */
  class DaemonClient {
    var nextId: nat
    var pending: set<nat>
    var buffer: string
    var settled: map<nat, Outcome>
    var emitted: seq<Emission>

    constructor ()
      ensures Now() == NEW_CLIENT
    {
      nextId, pending, buffer, settled, emitted := 1, {}, "", map[], [];
    }

    function Now(): Client
      reads this
    {
      Client(nextId, pending, buffer, settled, emitted)
    }

    method RequestRaw(c: Codec) returns (id: nat)
      modifies this
      ensures Now() == Next(c, old(Now()), Request) && id == old(nextId)
    {
      id := nextId;
      nextId := nextId + 1;
      pending := pending + {id};
    }

    method HandleLine(c: Codec, line: string)
      modifies `pending, `settled, `emitted
      ensures Now() == OnLine(c, old(Now()), line)
    {
      var m := c.parse(line);
      if m.None? {
        emitted := emitted + [ParseError(line)];
        return;
      }
      match m.value {
        case Event(e) => emitted := emitted + [Emitted(e)];
        case EventGap(g) => emitted := emitted + [Gap(g)];
        case Response(id, _, _) =>
          if id !in pending { return; }
          pending := pending - {id};
          settled := settled[id := Answer(m.value)];
      }
    }

    /** `onData`: one line after the other is cut from the buffer. */
    method HandleData(c: Codec, chunk: string)
      modifies this
      ensures Now() == Next(c, old(Now()), Data(chunk))
    {
      DrainIsOnData(c, Now(), chunk);
      buffer := buffer + chunk;
      ghost var all := Drained(c, Now());
      while '\n' in buffer
        invariant Drained(c, Now()) == all
        decreases |buffer|
      {
        DrainOne(c, Now());
        var i := IndexOf(buffer, '\n');
        var line := Trim(buffer[..i]);
        buffer := buffer[i + 1..];
        if line == "" { continue; }
        HandleLine(c, line);
      }
    }

    method RejectAll(c: Codec, reason: string)
      modifies this
      ensures Now() == Next(c, old(Now()), Closed(reason))
    {
      settled := settled + (map id | id in pending :: Rejected(reason));
      pending := {};
      emitted := emitted + [Disconnected(reason)];
    }
  }
}
