/** The shared state of one `codex app-server` session: the table of pending
    requests, the writer's queue, the approval tasks and the terminal channel
    (crates/am-agents/src/codex_app_server.rs). Every step below is one stretch
    of a task between two awaits, so a sequence of steps is an interleaving. At
    an await a task may rest before or after what it awaits has taken effect,
    and the reader may be aborted wherever it rests. */
module RpcSession {
  import opened Wrappers
  import opened Approvals

  const TWO_TO_THE_64: nat := 0x1_0000_0000_0000_0000

  // -------------------------------------------------------- the request table

  type JsonResult = Result<string, string>

  /** The one-shot channel of a request: what was sent through it and when. */
  datatype Slot = Empty | Answered(result: JsonResult, at: nat) | Released(at: nat) | Dropped

  datatype Outcome = Replied(result: JsonResult, at: nat) | ConnectionClosed | StdinClosed | NoResponse

  /** Where `Rpc::request` stands. An abandoned request's future was dropped. */
  datatype Phase = Allocated | Registered | Sent | Unregistering | Done(outcome: Outcome) | Abandoned

  datatype Request = Request(id: nat, phase: Phase, slot: Slot)

  /** The wire id of the nth request: `fetch_add` on a 64-bit counter from 1. */
  function WireId(n: nat): nat {
    (1 + n) % TWO_TO_THE_64
  }

  /** `ResponseState` and the requests that refer to it; `waiting` leads from
      wire ids to requests. */
  datatype Table = Table(requests: seq<Request>, closed: bool, waiting: map<nat, nat>) {

    predicate InPhase(r: nat, phase: Phase) {
      r < |requests| && requests[r].phase == phase
    }

    predicate IsWaiting(r: nat)
      requires r < |requests|
    {
      requests[r].id in waiting && waiting[requests[r].id] == r
    }

    /** The requests when all waiting ones but those in `left` are released. */
    function Released(left: set<nat>, at: nat): seq<Request> {
      seq(|requests|, r requires 0 <= r < |requests| =>
        if IsWaiting(r) && requests[r].id !in left then requests[r].(slot := Slot.Released(at)) else requests[r])
    }

    function Add(): Table {
      this.(requests := requests + [Request(WireId(|requests|), Allocated, Empty)])
    }

    function Advance(r: nat, phase: Phase): Table
      requires r < |requests|
    {
      this.(requests := requests[r := requests[r].(phase := phase)])
    }

    /** Take the entry of `id` out, leaving `slot` in its channel. */
    function Remove(id: nat, slot: Slot): Table {
      if id !in waiting then this
      else if waiting[id] >= |requests| then this.(waiting := waiting - {id})
      else Table(requests[waiting[id] := requests[waiting[id]].(slot := slot)], closed, waiting - {id})
    }

    /** Lock and insert; a sender that the insertion replaces is dropped. */
    function Register(r: nat): Table
      requires r < |requests|
    {
      if closed then Advance(r, Done(ConnectionClosed)) else
        var freed := Remove(requests[r].id, Dropped);
        if r < |freed.requests| then freed.Advance(r, Registered).(waiting := freed.waiting[requests[r].id := r]) else this
    }

    function Receive(r: nat): Table
      requires r < |requests|
    {
      Advance(r, match requests[r].slot
                 case Answered(result, at) => Done(Replied(result, at))
                 case Released(_) => Done(ConnectionClosed)
                 case _ => Done(NoResponse))
    }

    /** Lock, close and release every request still waiting. */
    function Close(at: nat): Table {
      Table(Released({}, at), true, map[])
    }

    ghost predicate Inv() {
      && (forall r {:trigger requests[r]} :: 0 <= r < |requests| ==>
            && requests[r].id == WireId(r)
            && (requests[r].phase in {Registered, Sent} && requests[r].slot == Empty ==> IsWaiting(r))
            && (requests[r].phase == Allocated ==> requests[r].slot == Empty))
      && (closed ==> waiting == map[])
      && (forall id :: id in waiting ==>
            && waiting[id] < |requests|
            && requests[waiting[id]].id == id
            && requests[waiting[id]].slot == Empty
            && requests[waiting[id]].phase != Allocated)
    }

    lemma ReleaseOne(left: set<nat>, id: nat, at: nat)
      requires Inv() && id in left && left <= waiting.Keys
      ensures Released(left, at)[waiting[id]] == requests[waiting[id]]
      ensures Released(left - {id}, at) == Released(left, at)[waiting[id] := requests[waiting[id]].(slot := Slot.Released(at))]
    {}

    lemma RemoveKeepsInv(id: nat, slot: Slot)
      requires Inv() && slot != Empty
      ensures Remove(id, slot).Inv() && id !in Remove(id, slot).waiting
      ensures |Remove(id, slot).requests| == |requests|
    {}

    lemma AdvanceKeepsInv(r: nat, phase: Phase)
      requires Inv() && r < |requests| && phase != Allocated
      requires phase in {Registered, Sent} ==> requests[r].phase in {Registered, Sent}
      ensures Advance(r, phase).Inv()
    {}

    lemma RegisterKeepsInv(r: nat)
      requires Inv() && InPhase(r, Allocated)
      ensures Register(r).Inv()
    {
      if closed {
        AdvanceKeepsInv(r, Done(ConnectionClosed));
      } else {
        RemoveKeepsInv(requests[r].id, Dropped);
        assert Remove(requests[r].id, Dropped).requests[r] == requests[r];
      }
    }

    lemma CloseKeepsInv(at: nat)
      requires Inv()
      ensures Close(at).Inv()
    {}
  }

  // ---------------------------------------------------------- server requests

  datatype Reply = Reply(call: nat, body: ReplyBody)

  /** Requests of the server: those taken up, those whose approval task waits
      for the user, those whose task has the decision but has not handed the
      reply on, and the replies sent, with or without a writer. */
  datatype Server = Server(
    calls: seq<ServerCall>, asking: set<nat>, decided: map<nat, ApprovalDecision>, replies: seq<Reply>)

  datatype OutLine = RequestLine(request: nat) | ReplyLine(call: nat, id: string, body: ReplyBody)

  // ------------------------------------------------------------ the whole state

  datatype Status = Completed | Interrupted | Failed

  /** The status `handle_notification` returns; `turnStatus` is the text of
      `turn.status` in the notification. */
  function NotifiedStatus(m: string, turnStatus: Option<string>): Option<Status> {
    if m == "turn/completed" then
      Some(if turnStatus == Some("interrupted") then Interrupted else if turnStatus == Some("failed") then Failed else Completed)
    else if m == "turn/failed" then Some(Failed)
    else None
  }

  /** Where the reader rests. */
  datatype ReaderPhase =
    | Reading                            // waits for the next line
    | Replying(call: nat)                // answers a request that asks nobody
    | Noticing(status: Option<Status>)   // passes a notification's events on
    | Closing                            // the table is closed, the disconnect not shown
    | Reported                           // ... shown, but no status given
    | Finished
    | Aborted(at: ReaderPhase)           // dropped while it rested there
  {
    function Place(): ReaderPhase {
      if Aborted? then at else this
    }
  }

  datatype State = State(
    clock: nat,
    table: Table,
    server: Server,
    writerOpen: bool,
    outbox: seq<OutLine>,      // lines accepted by the writer's queue
    reader: ReaderPhase,
    terminal: Option<Status>,  // what went through the terminal channel
    disconnectErrors: nat)

  const Start: State := State(0, Table([], false, map[]), Server([], {}, map[], []), true, [], Reading, None, 0)

  datatype Step =
    | Allocate                                   // Rpc::request takes an id
    | Register(r: nat)                           // locks the table and inserts
    | Enqueue(r: nat)                            // hands its line to the writer
    | Unregister(r: nat)                         // the writer was gone: locks and removes
    | Receive(r: nat)                            // wakes up on its channel
    | Abandon(r: nat)                            // its future is dropped
    | Respond(id: nat, result: JsonResult)       // the reader takes a response line
    | TakeCall(call: ServerCall)                 // ... a server request
    | Answer                                     // ... whose reply it hands to the writer
    | Notify(method_: string, turnStatus: Option<string>) // ... a notification
    | FinishNotice                               // ... whose events were taken
    | Decide(k: nat, decision: ApprovalDecision) // the user answers an approval task
    | SendDecision(k: nat)                       // ... which hands its reply to the writer
    | CloseTable                                 // end of output: the reader drains the table
    | ReportDisconnect                           // ... shows the disconnect
    | FinishReader                               // ... and gives the status
    | AbortReader
    | StopWriter

  predicate Enabled(s: State, step: Step) {
    match step
    case Allocate => true
    case Register(r) => s.table.InPhase(r, Allocated)
    case Enqueue(r) => s.table.InPhase(r, Registered)
    case Unregister(r) => s.table.InPhase(r, Unregistering)
    case Receive(r) => s.table.InPhase(r, Sent) && s.table.requests[r].slot != Empty
    case Abandon(r) => r < |s.table.requests| && !s.table.requests[r].phase.Done?
    case Respond(_, _) => s.reader == Reading
    case TakeCall(_) => s.reader == Reading
    case Notify(_, _) => s.reader == Reading
    case Answer => s.reader.Replying? && s.reader.call < |s.server.calls|
    case FinishNotice => s.reader.Noticing?
    case Decide(k, _) => k in s.server.asking
    case SendDecision(k) => k in s.server.decided && k < |s.server.calls|
    case CloseTable => s.reader == Reading
    case ReportDisconnect => s.reader == Closing
    case FinishReader => s.reader == Reported
    case AbortReader => !s.reader.Finished? && !s.reader.Aborted?
    case StopWriter => true
  }

  function TableAfter(s: State, step: Step): Table
    requires Enabled(s, step)
  {
    match step
    case Allocate => s.table.Add()
    case Register(r) => s.table.Register(r)
    case Enqueue(r) => s.table.Advance(r, if s.writerOpen then Sent else Unregistering)
    case Unregister(r) =>
      var freed := s.table.Remove(s.table.requests[r].id, Dropped);
      if r < |freed.requests| then freed.Advance(r, Done(StdinClosed)) else freed
    case Receive(r) => s.table.Receive(r)
    case Abandon(r) => s.table.Advance(r, Abandoned)
    case Respond(id, result) => s.table.Remove(id, Answered(result, s.clock))
    case CloseTable => s.table.Close(s.clock)
    case _ => s.table
  }

  function ServerAfter(s: State, step: Step): Server
    requires Enabled(s, step)
  {
    var v := s.server;
    match step
    case TakeCall(call) => v.(calls := v.calls + [call], asking := if Asks(call) then v.asking + {|v.calls|} else v.asking)
    case Answer => v.(replies := v.replies + [Reply(s.reader.call, ImmediateReply(v.calls[s.reader.call]))])
    case Decide(k, d) => v.(asking := v.asking - {k}, decided := v.decided[k := d])
    case SendDecision(k) =>
      v.(decided := v.decided - {k}, replies := v.replies + [Reply(k, DecidedReply(v.calls[k], v.decided[k]))])
    case _ => v
  }

  function ReaderAfter(s: State, step: Step): ReaderPhase
    requires Enabled(s, step)
  {
    match step
    case TakeCall(call) => if Asks(call) then Reading else Replying(|s.server.calls|)
    case Answer => Reading
    case Notify(m, turn) => Noticing(NotifiedStatus(m, turn))
    case FinishNotice => Reading
    case CloseTable => if s.terminal.Some? || s.table.waiting != map[] then Finished else Closing
    case ReportDisconnect => Reported
    case FinishReader => Finished
    case AbortReader => Aborted(s.reader)
    case _ => s.reader
  }

  /** The terminal channel takes one status and no other. */
  function TerminalAfter(s: State, step: Step): Option<Status>
    requires Enabled(s, step)
  {
    if s.terminal.Some? then s.terminal
    else if step == FinishNotice then s.reader.status
    else if step == FinishReader || (step == CloseTable && s.table.waiting != map[]) then Some(Failed)
    else None
  }

  /** The line a step hands to the writer. */
  function LineOf(s: State, step: Step): Option<OutLine>
    requires Enabled(s, step)
  {
    var v := s.server;
    match step
    case Enqueue(r) => Some(RequestLine(s.table.requests[r].id))
    case Answer => Some(ReplyLine(s.reader.call, v.calls[s.reader.call].id, ImmediateReply(v.calls[s.reader.call])))
    case SendDecision(k) => Some(ReplyLine(k, v.calls[k].id, DecidedReply(v.calls[k], v.decided[k])))
    case _ => None
  }

  function Effect(s: State, step: Step): State
    requires Enabled(s, step)
  {
    State(s.clock, TableAfter(s, step), ServerAfter(s, step), s.writerOpen && step != StopWriter,
          if s.writerOpen && LineOf(s, step).Some? then s.outbox + [LineOf(s, step).value] else s.outbox,
          ReaderAfter(s, step), TerminalAfter(s, step), s.disconnectErrors + if step == ReportDisconnect then 1 else 0)
  }

  /** A step that is not possible now passes without effect. */
  function Next(s: State, step: Step): State {
    (if Enabled(s, step) then Effect(s, step) else s).(clock := s.clock + 1)
  }

  /** The state after any interleaving. */
  function After(steps: seq<Step>): State {
    if steps == [] then Start else Next(After(steps[..|steps| - 1]), steps[|steps| - 1])
  }

  function NextTable(s: State, step: Step): Table {
    if Enabled(s, step) then TableAfter(s, step) else s.table
  }

  function NextServer(s: State, step: Step): Server {
    if Enabled(s, step) then ServerAfter(s, step) else s.server
  }

  function NextReader(s: State, step: Step): ReaderPhase {
    if Enabled(s, step) then ReaderAfter(s, step) else s.reader
  }

  function NextTerminal(s: State, step: Step): Option<Status> {
    if Enabled(s, step) then TerminalAfter(s, step) else s.terminal
  }

  function NextErrors(s: State, step: Step): nat {
    s.disconnectErrors + if s.reader == Closing && step == ReportDisconnect then 1 else 0
  }

  lemma NextInParts(s: State, step: Step)
    ensures Next(s, step).table == NextTable(s, step)
    ensures Next(s, step).server == NextServer(s, step) && Next(s, step).reader == NextReader(s, step)
    ensures Next(s, step).terminal == NextTerminal(s, step) && Next(s, step).disconnectErrors == NextErrors(s, step)
  {}

  // -------------------------------------------------------- table invariants

  lemma TableStep(s: State, step: Step)
    requires s.table.Inv()
    ensures NextTable(s, step).Inv()
  {
    if Enabled(s, step) {
      match step
      case Register(r) => s.table.RegisterKeepsInv(r);
      case Enqueue(r) => s.table.AdvanceKeepsInv(r, if s.writerOpen then Sent else Unregistering);
      case Unregister(r) =>
        s.table.RemoveKeepsInv(s.table.requests[r].id, Dropped);
        s.table.Remove(s.table.requests[r].id, Dropped).AdvanceKeepsInv(r, Done(StdinClosed));
      case Receive(r) => s.table.AdvanceKeepsInv(r, s.table.Receive(r).requests[r].phase);
      case Abandon(r) => s.table.AdvanceKeepsInv(r, Abandoned);
      case Respond(id, result) => s.table.RemoveKeepsInv(id, Answered(result, s.clock));
      case CloseTable => s.table.CloseKeepsInv(s.clock);
      case _ =>
    }
  }

  /** All a step can do to one request. */
  lemma RequestStep(s: State, step: Step, r: nat)
    requires s.table.Inv() && r < |s.table.requests|
    ensures r < |NextTable(s, step).requests|
    ensures var old_, new_ := s.table.requests[r], NextTable(s, step).requests[r];
            && new_.id == old_.id
            && (old_.slot != Empty ==> new_.slot == old_.slot)
            && (old_.slot == Empty && new_.slot.Answered? ==>
                  step == Respond(old_.id, new_.slot.result) && new_.slot.at == s.clock && s.table.IsWaiting(r))
            && (old_.slot == Empty && new_.slot.Released? ==> step == CloseTable && new_.slot.at == s.clock)
            && (old_.slot == Empty && new_.slot == Dropped ==>
                  && s.table.IsWaiting(r)
                  && (step.Register? || step.Unregister?) && step.r < |s.table.requests|
                  && s.table.requests[step.r].id == old_.id
                  && (step.Register? ==> step.r != r) && (step == Unregister(r) ==> new_.phase == Done(StdinClosed)))
            && (old_.phase.Done? ==> new_.phase == old_.phase)
            && (!old_.phase.Done? && new_.phase.Done? ==>
                  match new_.phase.outcome
                  case Replied(result, at) => old_.slot == Answered(result, at)
                  case ConnectionClosed => s.table.closed || old_.slot.Released?
                  case StdinClosed => old_.phase == Unregistering
                  case NoResponse => old_.slot == Dropped)
  {}

  /** What holds of the table after every interleaving. */
  ghost predicate RunInv(steps: seq<Step>) {
    var s := After(steps);
    && s.clock == |steps|
    && s.table.Inv()
    && (s.table.closed <==> PastTheEnd(s.reader))
  }

  predicate PastTheEnd(reader: ReaderPhase) {
    reader.Place() in {Closing, Reported, Finished}
  }

  lemma {:induction false} RunKeepsInv(steps: seq<Step>)
    ensures RunInv(steps)
  {
    if steps != [] {
      var before, step := After(steps[..|steps| - 1]), steps[|steps| - 1];
      RunKeepsInv(steps[..|steps| - 1]);
      TableStep(before, step);
      NextInParts(before, step);
      ClosedByReader(before, step);
    }
  }

  lemma ClosedByReader(s: State, step: Step)
    requires s.table.closed <==> PastTheEnd(s.reader)
    ensures Next(s, step).table.closed <==> PastTheEnd(Next(s, step).reader)
    ensures s.table.closed ==> Next(s, step).table.closed
  {}

  /** Once closed, the table stays closed and empty through every continuation. */
  lemma {:induction false} ClosedForEver(steps: seq<Step>, more: seq<Step>)
    requires After(steps).table.closed
    ensures After(steps + more).table.closed && After(steps + more).table.waiting == map[]
    decreases |more|
  {
    RunKeepsInv(steps + more);
    if more == [] {
      assert steps + more == steps;
    } else {
      var m := |more| - 1;
      ClosedForEver(steps, more[..m]);
      RunKeepsInv(steps + more[..m]);
      assert (steps + more)[..|steps| + m] == steps + more[..m];
      ClosedByReader(After(steps + more[..m]), more[m]);
    }
  }

  lemma WireIdsDiffer(r: nat, q: nat)
    requires r < q < TWO_TO_THE_64
    ensures WireId(r) != WireId(q)
  {
    assert WireId(r) == 1 + r;
    assert q < TWO_TO_THE_64 - 1 ==> WireId(q) == 1 + q;
    assert q == TWO_TO_THE_64 - 1 ==> WireId(q) == 0;
  }

  /** No two requests share a wire id exactly as long as the 64-bit counter has
      not gone round. */
  lemma IdsAreNotReused(steps: seq<Step>)
    ensures var requests := After(steps).table.requests;
            (forall r, q :: 0 <= r < q < |requests| ==> requests[r].id != requests[q].id) <==> |requests| <= TWO_TO_THE_64
  {
    RunKeepsInv(steps);
    var requests := After(steps).table.requests;
    assert forall r :: 0 <= r < |requests| ==> requests[r].id == WireId(r);
    if |requests| > TWO_TO_THE_64 {
      assert WireId(0) == WireId(TWO_TO_THE_64);
      assert requests[0].id == requests[TWO_TO_THE_64].id;
    } else {
      forall r, q | 0 <= r < q < |requests| ensures requests[r].id != requests[q].id {
        WireIdsDiffer(r, q);
      }
    }
  }

  // ------------------------------------------------- replies reach their request

  /** Where the content of a request's channel came from. */
  ghost predicate FromReader(steps: seq<Step>, r: nat, q: Request) {
    && (q.slot.Answered? ==>
          && q.slot.at < |steps| && steps[q.slot.at] == Respond(q.id, q.slot.result)
          && r < |After(steps[..q.slot.at]).table.requests|
          && After(steps[..q.slot.at]).table.IsWaiting(r))
    && (q.slot.Released? ==> q.slot.at < |steps| && steps[q.slot.at] == CloseTable)
    && (q.phase.Done? && q.phase.outcome.Replied? ==> q.slot == Answered(q.phase.outcome.result, q.phase.outcome.at))
  }

  ghost predicate AllFromReader(steps: seq<Step>, requests: seq<Request>) {
    forall r {:trigger requests[r]} :: 0 <= r < |requests| ==> FromReader(steps, r, requests[r])
  }

  ghost predicate AnsweredApart(requests: seq<Request>) {
    forall r, q {:trigger requests[r], requests[q]} :: 0 <= r < q < |requests| ==>
      requests[r].slot.Answered? && requests[q].slot.Answered? ==> requests[r].slot.at != requests[q].slot.at
  }

  lemma FromReaderStep(steps: seq<Step>, step: Step, r: nat)
    requires RunInv(steps) && r < |After(steps).table.requests|
    requires FromReader(steps, r, After(steps).table.requests[r])
    ensures r < |NextTable(After(steps), step).requests|
    ensures FromReader(steps + [step], r, NextTable(After(steps), step).requests[r])
  {
    var s := After(steps);
    RequestStep(s, step, r);
    var q := NextTable(s, step).requests[r];
    if q.slot.Answered? || q.slot.Released? {
      assert (steps + [step])[..q.slot.at] == steps[..q.slot.at];
      assert steps[..|steps|] == steps;
    }
  }

  lemma NewRequest(s: State, step: Step, r: nat)
    requires s.table.Inv() && |s.table.requests| <= r < |NextTable(s, step).requests|
    ensures NextTable(s, step).requests[r] == Request(WireId(r), Allocated, Empty)
  {}

  lemma AnsweredApartStep(steps: seq<Step>, step: Step)
    requires RunInv(steps) && AllFromReader(steps, After(steps).table.requests) && AnsweredApart(After(steps).table.requests)
    ensures AnsweredApart(NextTable(After(steps), step).requests)
  {
    var s := After(steps);
    var before, after := s.table.requests, NextTable(s, step).requests;
    forall r, q | 0 <= r < q < |after| && after[r].slot.Answered? && after[q].slot.Answered?
      ensures after[r].slot.at != after[q].slot.at
    {
      if q >= |before| {
        NewRequest(s, step, q);
      } else {
        RequestStep(s, step, r);
        RequestStep(s, step, q);
        assert FromReader(steps, r, before[r]) && FromReader(steps, q, before[q]);
      }
    }
  }

  lemma {:induction false} RunFromReader(steps: seq<Step>)
    ensures AllFromReader(steps, After(steps).table.requests) && AnsweredApart(After(steps).table.requests)
  {
    if steps != [] {
      var before, step := steps[..|steps| - 1], steps[|steps| - 1];
      RunFromReader(before);
      RunKeepsInv(before);
      NextInParts(After(before), step);
      AnsweredApartStep(before, step);
      assert before + [step] == steps;
      forall r | 0 <= r < |After(steps).table.requests| ensures FromReader(steps, r, After(steps).table.requests[r]) {
        if r < |After(before).table.requests| {
          FromReaderStep(before, step, r);
        } else {
          NewRequest(After(before), step, r);
        }
      }
    }
  }

  /** A request that resolved with a reply got the response line that carried
      its own id, taken while it was waiting for it; and no response line
      resolved two requests. */
  lemma RepliesAreOwn(steps: seq<Step>, r: nat, q: nat)
    requires r < |After(steps).table.requests| && q < |After(steps).table.requests|
    requires After(steps).table.requests[r].phase.Done? && After(steps).table.requests[r].phase.outcome.Replied?
    ensures var reply := After(steps).table.requests[r].phase.outcome;
            && reply.at < |steps| && steps[reply.at] == Respond(WireId(r), reply.result)
            && r < |After(steps[..reply.at]).table.requests| && After(steps[..reply.at]).table.IsWaiting(r)
            && (r != q ==> After(steps).table.requests[q].phase != Done(reply))
  {
    RunKeepsInv(steps);
    RunFromReader(steps);
    var requests := After(steps).table.requests;
    assert requests[r].id == WireId(r);
    assert FromReader(steps, r, requests[r]) && FromReader(steps, q, requests[q]);
  }

  predicate Forgotten(q: Request) {
    (q.slot == Dropped && q.phase != Done(StdinClosed)) || q.phase == Done(NoResponse)
  }

  /** While the counter has not gone round, a channel is only ever dropped by its
      own request: nobody else ends up without a response. */
  lemma {:induction false} NobodyIsForgotten(steps: seq<Step>)
    requires |After(steps).table.requests| <= TWO_TO_THE_64
    ensures forall q :: q in After(steps).table.requests ==> !Forgotten(q)
  {
    if steps != [] {
      var before, step := steps[..|steps| - 1], steps[|steps| - 1];
      var s, t := After(before), NextTable(After(before), step);
      RunKeepsInv(before);
      NextInParts(s, step);
      RequestsOnlyGrow(s, step);
      NobodyIsForgotten(before);
      forall r | 0 <= r < |t.requests| ensures !Forgotten(t.requests[r]) {
        NeverForgotten(s, step, r);
      }
    }
  }

  lemma NeverForgotten(s: State, step: Step, r: nat)
    requires s.table.Inv() && r < |NextTable(s, step).requests| <= TWO_TO_THE_64
    requires forall q :: q in s.table.requests ==> !Forgotten(q)
    ensures !Forgotten(NextTable(s, step).requests[r])
  {
    if r >= |s.table.requests| {
      NewRequest(s, step, r);
      return;
    }
    RequestStep(s, step, r);
    RequestsOnlyGrow(s, step);
    var q := s.table.requests[r];
    assert !Forgotten(q);
    if NextTable(s, step).requests[r].slot == Dropped && q.slot == Empty {
      if step.r < r {
        WireIdsDiffer(step.r, r);
      } else if r < step.r {
        WireIdsDiffer(r, step.r);
      }
    }
  }

  lemma RequestsOnlyGrow(s: State, step: Step)
    ensures |s.table.requests| <= |NextTable(s, step).requests|
  {}

  lemma OutcomeStays(s: State, step: Step, r: nat)
    requires s.table.Inv() && r < |s.table.requests| && s.table.requests[r].phase.Done?
    ensures r < |Next(s, step).table.requests| && Next(s, step).table.requests[r].phase == s.table.requests[r].phase
  {
    RequestStep(s, step, r);
    NextInParts(s, step);
  }

  /** A request resolves at most once: its outcome never changes again. */
  lemma {:induction false} OutcomesAreFinal(steps: seq<Step>, more: seq<Step>, r: nat)
    requires r < |After(steps).table.requests| && After(steps).table.requests[r].phase.Done?
    ensures r < |After(steps + more).table.requests|
    ensures After(steps + more).table.requests[r].phase == After(steps).table.requests[r].phase
    decreases |more|
  {
    if more == [] {
      assert steps + more == steps;
    } else {
      var m := |more| - 1;
      OutcomesAreFinal(steps, more[..m], r);
      RunKeepsInv(steps + more[..m]);
      assert (steps + more)[..|steps| + m] == steps + more[..m];
      OutcomeStays(After(steps + more[..m]), more[m], r);
    }
  }

  /** Whether `steps` holds the four steps a request takes by itself, in order
      and with anything between them; `from` are those already seen. */
  predicate TakesOwnSteps(steps: seq<Step>, r: nat, from: nat) {
    from >= 4 || (steps != [] &&
      if steps[0] == OwnStepAt(r, from) then TakesOwnSteps(steps[1..], r, from + 1) else TakesOwnSteps(steps[1..], r, from))
  }

  function OwnStepAt(r: nat, i: nat): Step {
    if i == 0 then Register(r) else if i == 1 then Enqueue(r) else if i == 2 then Unregister(r) else Receive(r)
  }

  /** After the end of output nobody is left waiting: wherever a request stands,
      its own remaining steps resolve it, whatever happened before and whatever
      else happens between them. */
  lemma ClosedRequestsResolve(steps: seq<Step>, more: seq<Step>, r: nat)
    requires After(steps).table.closed && r < |After(steps).table.requests|
    requires TakesOwnSteps(more, r, 0)
    ensures var end := After(steps + more).table;
            r < |end.requests| &&
            if After(steps).table.requests[r].phase == Abandoned || Abandon(r) in more then Rank(end.requests[r].phase) == 4
            else end.requests[r].phase.Done?
  {
    RunKeepsInv(steps);
    StepsResolve(steps, more, r, 0);
  }

  lemma {:induction false} StepsResolve(steps: seq<Step>, more: seq<Step>, r: nat, i: nat)
    requires RunInv(steps) && After(steps).table.closed && r < |After(steps).table.requests|
    requires i <= 4 && Rank(After(steps).table.requests[r].phase) >= i && TakesOwnSteps(more, r, i)
    ensures r < |After(steps + more).table.requests| && Rank(After(steps + more).table.requests[r].phase) == 4
    ensures After(steps + more).table.requests[r].phase == Abandoned ==>
              After(steps).table.requests[r].phase == Abandoned || Abandon(r) in more
    decreases |more|
  {
    if more == [] {
      assert steps + more == steps;
    } else {
      var next := steps + [more[0]];
      AfterSnoc(steps, more[0]);
      RunKeepsInv(next);
      RankGrows(After(steps), more[0], r, i);
      assert next + more[1..] == steps + more;
      StepsResolve(next, more[1..], r, if i < 4 && more[0] == OwnStepAt(r, i) then i + 1 else i);
    }
  }

  lemma AfterSnoc(steps: seq<Step>, step: Step)
    ensures After(steps + [step]) == Next(After(steps), step)
  {
    assert (steps + [step])[..|steps|] == steps;
  }

  function Rank(phase: Phase): nat {
    match phase
    case Allocated => 0
    case Registered => 1
    case Unregistering => 2
    case Sent => 3
    case _ => 4
  }

  /** In a closed table no step moves a request back, and each of its own steps
      moves it on. */
  lemma RankGrows(s: State, step: Step, r: nat, i: nat)
    requires s.table.Inv() && s.table.closed && r < |s.table.requests| && i <= Rank(s.table.requests[r].phase)
    ensures var t := Next(s, step).table;
            && t.closed && r < |t.requests| && i <= Rank(t.requests[r].phase)
            && (i < 4 && step == OwnStepAt(r, i) ==> i + 1 <= Rank(t.requests[r].phase))
            && (t.requests[r].phase == Abandoned ==> s.table.requests[r].phase == Abandoned || step == Abandon(r))
  {
    NextInParts(s, step);
    RequestStep(s, step, r);
  }

  // -------------------------------------------------- every server request once

  /** The reply lines in the writer's queue, in order. */
  function ReplyLines(outbox: seq<OutLine>): seq<OutLine> {
    if outbox == [] then [] else
      var last := outbox[|outbox| - 1];
      ReplyLines(outbox[..|outbox| - 1]) + if last.ReplyLine? then [last] else []
  }

  lemma ReplyLinesSnoc(outbox: seq<OutLine>, line: OutLine)
    ensures ReplyLines(outbox + [line]) == ReplyLines(outbox) + if line.ReplyLine? then [line] else []
  {
    assert (outbox + [line])[..|outbox|] == outbox;
  }

  /** The decision the user gave to the approval task of request `k`. */
  function DecisionOf(steps: seq<Step>, k: nat): Option<ApprovalDecision> {
    if steps == [] then None else
      var before, step := steps[..|steps| - 1], steps[|steps| - 1];
      if step.Decide? && step.k == k && k in After(before).server.asking then Some(step.decision) else DecisionOf(before, k)
  }

  /** Where a request of the server can be: its approval task asks the user or
      holds the decision, the reader holds it, or the reply was handed on. */
  datatype Place = WithTheUser | Decided | InTheReader | HandedOn(j: nat)

  predicate IsAt(v: Server, reader: ReaderPhase, k: nat, place: Place) {
    match place
    case WithTheUser => k in v.asking
    case Decided => k in v.decided
    case InTheReader => reader.Place() == Replying(k)
    case HandedOn(j) => j < |v.replies| && v.replies[j].call == k
  }

  ghost predicate IsOnlyAt(v: Server, reader: ReaderPhase, k: nat, place: Place) {
    forall p :: IsAt(v, reader, k, p) <==> p == place
  }

  ghost predicate HasOnePlace(v: Server, reader: ReaderPhase, k: nat) {
    exists place :: IsOnlyAt(v, reader, k, place)
  }

  function NextPlace(s: State, step: Step, k: nat, place: Place): Place {
    if !Enabled(s, step) then place
    else if (step == Answer && place == InTheReader) || step == SendDecision(k) then HandedOn(|s.server.replies|)
    else if step.Decide? && step.k == k then Decided
    else place
  }

  lemma PlaceMoves(s: State, step: Step, k: nat, place: Place)
    requires k < |s.server.calls| && IsOnlyAt(s.server, s.reader, k, place)
    ensures IsOnlyAt(NextServer(s, step), NextReader(s, step), k, NextPlace(s, step, k, place))
  {
    OnlyPlaces(s.server, s.reader, k, place);
    forall p ensures IsAt(NextServer(s, step), NextReader(s, step), k, p) <==> p == NextPlace(s, step, k, place) {
      assert IsAt(s.server, s.reader, k, p) <==> p == place;
    }
  }

  lemma OnlyPlaces(v: Server, reader: ReaderPhase, k: nat, place: Place)
    requires IsOnlyAt(v, reader, k, place)
    ensures IsAt(v, reader, k, place)
    ensures k in v.asking <==> place == WithTheUser
    ensures k in v.decided <==> place == Decided
    ensures reader.Place() == Replying(k) <==> place == InTheReader
  {
    assert IsAt(v, reader, k, place);
    assert IsAt(v, reader, k, WithTheUser) <==> place == WithTheUser;
    assert IsAt(v, reader, k, Decided) <==> place == Decided;
    assert IsAt(v, reader, k, InTheReader) <==> place == InTheReader;
  }

  /** The answer that is due to request `k`. */
  function DueReply(steps: seq<Step>, k: nat, call: ServerCall): Option<ReplyBody> {
    if !Asks(call) then Some(ImmediateReply(call))
    else if DecisionOf(steps, k).Some? then Some(DecidedReply(call, DecisionOf(steps, k).value))
    else None
  }

  /** What holds of the server's requests: the decisions are the user's, the
      replies those due, and nothing is known of requests not yet taken up. */
  ghost predicate ServerInv(steps: seq<Step>, v: Server, reader: ReaderPhase) {
    && CallsKnown(v, reader)
    && DecisionsKnown(steps, v)
    && RepliesDue(steps, v)
    && (reader.Place().Replying? ==> !Asks(v.calls[reader.Place().call]))
    && (forall k :: 0 <= k < |v.calls| ==> HasOnePlace(v, reader, k))
  }

  ghost predicate CallsKnown(v: Server, reader: ReaderPhase) {
    && (forall k :: k in v.asking ==> k < |v.calls|)
    && (forall k :: k in v.decided ==> k < |v.calls|)
    && (reader.Place().Replying? ==> reader.Place().call < |v.calls|)
    && (forall j {:trigger v.replies[j]} :: 0 <= j < |v.replies| ==> v.replies[j].call < |v.calls|)
  }

  ghost predicate DecisionsKnown(steps: seq<Step>, v: Server)
  {
    && (forall k :: k in v.asking ==> k < |v.calls| && Asks(v.calls[k]) && DecisionOf(steps, k) == None)
    && (forall k :: k in v.decided ==> k < |v.calls| && Asks(v.calls[k]) && DecisionOf(steps, k) == Some(v.decided[k]))
    && (forall k {:trigger DecisionOf(steps, k)} :: k >= |v.calls| ==> DecisionOf(steps, k) == None)
  }

  ghost predicate RepliesDue(steps: seq<Step>, v: Server) {
    forall j {:trigger v.replies[j]} :: 0 <= j < |v.replies| ==>
      && v.replies[j].call < |v.calls|
      && DueReply(steps, v.replies[j].call, v.calls[v.replies[j].call]) == Some(v.replies[j].body)
  }

  lemma DecisionSnoc(steps: seq<Step>, step: Step, k: nat)
    ensures DecisionOf(steps + [step], k) ==
            if step.Decide? && step.k == k && k in After(steps).server.asking then Some(step.decision) else DecisionOf(steps, k)
  {
    assert (steps + [step])[..|steps|] == steps;
  }

  lemma OnePlaceStep(s: State, step: Step, k: nat)
    requires CallsKnown(s.server, s.reader) && (k < |s.server.calls| ==> HasOnePlace(s.server, s.reader, k))
    requires k < |NextServer(s, step).calls|
    ensures HasOnePlace(NextServer(s, step), NextReader(s, step), k)
  {
    if k < |s.server.calls| {
      var place :| IsOnlyAt(s.server, s.reader, k, place);
      PlaceMoves(s, step, k, place);
    } else {
      assert IsOnlyAt(NextServer(s, step), NextReader(s, step), k, if Asks(step.call) then WithTheUser else InTheReader);
    }
  }

  lemma DecisionsStep(steps: seq<Step>, step: Step)
    requires DecisionsKnown(steps, After(steps).server)
    ensures DecisionsKnown(steps + [step], NextServer(After(steps), step))
  {
    var v := After(steps).server;
    forall k: nat ensures DecisionOf(steps + [step], k) ==
      if step.Decide? && step.k == k && k in v.asking then Some(step.decision) else DecisionOf(steps, k)
    {
      DecisionSnoc(steps, step, k);
    }
    DecisionsCarryOver(steps, step, After(steps));
  }

  lemma DecisionsCarryOver(steps: seq<Step>, step: Step, s: State)
    requires DecisionsKnown(steps, s.server)
    requires forall k: nat :: DecisionOf(steps + [step], k) ==
               if step.Decide? && step.k == k && k in s.server.asking then Some(step.decision) else DecisionOf(steps, k)
    ensures DecisionsKnown(steps + [step], NextServer(s, step))
  {}

  /** A reply once due stays due: nobody decides about its request again. */
  lemma RepliesStep(steps: seq<Step>, step: Step)
    requires ServerInv(steps, After(steps).server, After(steps).reader)
    ensures RepliesDue(steps + [step], NextServer(After(steps), step))
  {
    var s := After(steps);
    var v, w := s.server, NextServer(s, step);
    forall j | 0 <= j < |w.replies|
      ensures w.replies[j].call < |w.calls|
      ensures DueReply(steps + [step], w.replies[j].call, w.calls[w.replies[j].call]) == Some(w.replies[j].body)
    {
      DecisionSnoc(steps, step, w.replies[j].call);
      if j < |v.replies| {
        assert w.replies[j] == v.replies[j];
        assert IsAt(v, s.reader, v.replies[j].call, HandedOn(j));
      }
    }
  }

  lemma ServerStep(steps: seq<Step>, step: Step)
    requires ServerInv(steps, After(steps).server, After(steps).reader)
    ensures ServerInv(steps + [step], NextServer(After(steps), step), NextReader(After(steps), step))
  {
    var s := After(steps);
    DecisionsStep(steps, step);
    RepliesStep(steps, step);
    forall k | 0 <= k < |NextServer(s, step).calls| ensures HasOnePlace(NextServer(s, step), NextReader(s, step), k) {
      OnePlaceStep(s, step, k);
    }
  }

  lemma {:induction false} RunKeepsServer(steps: seq<Step>)
    ensures ServerInv(steps, After(steps).server, After(steps).reader)
  {
    if steps != [] {
      var before, step := steps[..|steps| - 1], steps[|steps| - 1];
      RunKeepsServer(before);
      ServerStep(before, step);
      NextInParts(After(before), step);
      assert before + [step] == steps;
    }
  }

  /** In every interleaving each request of the server is in exactly one place,
      so it has no reply exactly while it is with the user, with its approval
      task or in the reader (also an aborted one), and never two; a reply is the
      one the user's decision asks for, or the immediate one if nobody was asked. */
  lemma ServerRequestsAnsweredOnce(steps: seq<Step>, k: nat)
    requires k < |After(steps).server.calls|
    ensures HasOnePlace(After(steps).server, After(steps).reader, k)
    ensures var s := After(steps);
            && ((exists j: nat :: IsAt(s.server, s.reader, k, HandedOn(j))) <==>
                  k !in s.server.asking && k !in s.server.decided && s.reader.Place() != Replying(k))
            && (forall i: nat, j: nat :: IsAt(s.server, s.reader, k, HandedOn(i)) && IsAt(s.server, s.reader, k, HandedOn(j)) ==> i == j)
            && (forall j: nat :: IsAt(s.server, s.reader, k, HandedOn(j)) ==> DueReply(steps, k, s.server.calls[k]) == Some(s.server.replies[j].body))
  {
    RunKeepsServer(steps);
    var s := After(steps);
    assert HasOnePlace(s.server, s.reader, k);
    var place :| IsOnlyAt(s.server, s.reader, k, place);
    OnlyPlaces(s.server, s.reader, k, place);
  }

  /** So a request whose reply the reader had in hand when it was
      aborted is never answered, whatever happens later. */
  lemma AbortedReplyIsLost(steps: seq<Step>, more: seq<Step>, k: nat)
    requires After(steps).reader == Aborted(Replying(k))
    ensures var t := After(steps + more);
            k < |t.server.calls| && forall j: nat :: !IsAt(t.server, t.reader, k, HandedOn(j))
  {
    AbortIsFinal(steps, more);
    RunKeepsServer(steps + more);
    ServerRequestsAnsweredOnce(steps + more, k);
  }

  function LinesOf(v: Server): seq<OutLine> {
    seq(|v.replies|, j requires 0 <= j < |v.replies| =>
      ReplyLine(v.replies[j].call, if v.replies[j].call < |v.calls| then v.calls[v.replies[j].call].id else "", v.replies[j].body))
  }

  /** The writer's queue holds the replies in order, each carrying the id of the
      request it answers: all of them while the writer lives, else the first. */
  lemma {:induction false} RepliesCarryTheirOwnId(steps: seq<Step>)
    ensures var s := After(steps); OutboxInv(s.server, s.writerOpen, s.outbox)
  {
    if steps != [] {
      var before, step := steps[..|steps| - 1], steps[|steps| - 1];
      RepliesCarryTheirOwnId(before);
      RunKeepsServer(before);
      NextInParts(After(before), step);
      OutboxStep(After(before), step);
    }
  }

  ghost predicate OutboxInv(v: Server, writerOpen: bool, outbox: seq<OutLine>) {
    ReplyLines(outbox) <= LinesOf(v) && (writerOpen ==> ReplyLines(outbox) == LinesOf(v))
  }

  /** The reply that a step hands on. */
  function NewReply(s: State, step: Step): seq<OutLine> {
    if Enabled(s, step) && LineOf(s, step).Some? && LineOf(s, step).value.ReplyLine? then [LineOf(s, step).value] else []
  }

  lemma LinesGrow(s: State, step: Step)
    requires CallsKnown(s.server, s.reader)
    ensures LinesOf(NextServer(s, step)) == LinesOf(s.server) + NewReply(s, step)
  {}

  lemma OutboxStep(s: State, step: Step)
    requires CallsKnown(s.server, s.reader) && OutboxInv(s.server, s.writerOpen, s.outbox)
    ensures OutboxInv(NextServer(s, step), Next(s, step).writerOpen, Next(s, step).outbox)
  {
    LinesGrow(s, step);
    if Enabled(s, step) && LineOf(s, step).Some? {
      ReplyLinesSnoc(s.outbox, LineOf(s, step).value);
    }
  }

  // ------------------------------------------------------------ terminal status

  /** The status of the first terminal notification the reader took. */
  function FirstTerminal(steps: seq<Step>): Option<Status> {
    if steps == [] then None else
      var before, step := steps[..|steps| - 1], steps[|steps| - 1];
      if FirstTerminal(before).Some? then FirstTerminal(before)
      else if step.Notify? && After(before).reader == Reading then NotifiedStatus(step.method_, step.turnStatus)
      else None
  }

  /** Whether the reader got through with it: its events were all taken. */
  function ToldTerminal(steps: seq<Step>): bool {
    if steps == [] then false else
      var before, step := steps[..|steps| - 1], steps[|steps| - 1];
      ToldTerminal(before) || (FirstTerminal(before).Some? && step == FinishNotice && After(before).reader.Noticing?)
  }

  /** Whether a request was waiting when the table was closed. */
  function WaitingAtClose(steps: seq<Step>): bool {
    if steps == [] then false else
      var before, step := steps[..|steps| - 1], steps[|steps| - 1];
      WaitingAtClose(before) || (step == CloseTable && After(before).reader == Reading && After(before).table.waiting != map[])
  }

  ghost predicate TerminalInv(first: Option<Status>, told: bool, waited: bool,
                              reader: ReaderPhase, terminal: Option<Status>, errors: nat)
  {
    var place := reader.Place();
    && terminal == (if told then first else if place == Finished then Some(Failed) else None)
    && (first.Some? && !told <==> place.Noticing? && place.status.Some? && !told)
    && (first.Some? && !told ==> place.status == first)
    && (told ==> first.Some?)
    && (place in {Closing, Reported} ==> !told && !waited)
    && errors == (if place in {Reported, Finished} && !told && !waited then 1 else 0)
    && (!PastTheEnd(reader) ==> !waited)
  }

  lemma TerminalStep(first: Option<Status>, told: bool, waited: bool, s: State, step: Step)
    requires TerminalInv(first, told, waited, s.reader, s.terminal, s.disconnectErrors)
    ensures TerminalInv(if first.None? && step.Notify? && s.reader == Reading then NotifiedStatus(step.method_, step.turnStatus) else first,
                        told || (first.Some? && step == FinishNotice && s.reader.Noticing?),
                        waited || (step == CloseTable && s.reader == Reading && s.table.waiting != map[]),
                        NextReader(s, step), NextTerminal(s, step), NextErrors(s, step))
  {}

  lemma {:induction false} RunKeepsTerminal(steps: seq<Step>)
    ensures var s := After(steps);
            TerminalInv(FirstTerminal(steps), ToldTerminal(steps), WaitingAtClose(steps), s.reader, s.terminal, s.disconnectErrors)
  {
    if steps != [] {
      var before, step := steps[..|steps| - 1], steps[|steps| - 1];
      RunKeepsTerminal(before);
      TerminalStep(FirstTerminal(before), ToldTerminal(before), WaitingAtClose(before), After(before), step);
      NextInParts(After(before), step);
    }
  }

  /** In every interleaving: the status is that of the first terminal
      notification, and with one taken it is missing exactly while the reader is
      still passing that notification's events on, or was aborted there. With
      none taken the end of output gives Failed. The disconnect error is shown
      at most once, and only if no terminal notification came and no request
      was waiting when the table closed; it stands without a status exactly
      where the reader rests, or was aborted, between the two. */
  lemma TerminalStatus(steps: seq<Step>)
    ensures var s, first := After(steps), FirstTerminal(steps);
            && (s.terminal.Some? ==> s.terminal == if first.Some? then first else Some(Failed))
            && (first.Some? ==> (s.terminal.None? <==> !ToldTerminal(steps)))
            && (first.Some? && s.terminal.None? ==> s.reader.Place() == Noticing(first))
            && (first.None? ==> (s.terminal.Some? <==> s.reader == Finished))
            && s.disconnectErrors <= 1
            && (s.disconnectErrors == 1 ==> first.None? && !WaitingAtClose(steps))
            && (s.reader == Finished && first.None? && !WaitingAtClose(steps) ==> s.disconnectErrors == 1)
            && (s.disconnectErrors == 1 && s.terminal.None? <==> s.reader.Place() == Reported)
  {
    RunKeepsTerminal(steps);
    RunKeepsReader(steps);
  }

  /** The reader is aborted once, and never after it finished. */
  lemma {:induction false} RunKeepsReader(steps: seq<Step>)
    ensures var reader := After(steps).reader; reader.Aborted? ==> !reader.at.Aborted? && !reader.at.Finished?
  {
    if steps != [] {
      RunKeepsReader(steps[..|steps| - 1]);
    }
  }

  /** An aborted reader tells nothing more: a status or a disconnect error it
      had in hand is lost. */
  lemma {:induction false} AbortIsFinal(steps: seq<Step>, more: seq<Step>)
    requires After(steps).reader.Aborted?
    ensures var s, t := After(steps), After(steps + more);
            t.reader == s.reader && t.terminal == s.terminal && t.disconnectErrors == s.disconnectErrors
    decreases |more|
  {
    if more == [] {
      assert steps + more == steps;
    } else {
      var m := |more| - 1;
      AbortIsFinal(steps, more[..m]);
      assert (steps + more)[..|steps| + m] == steps + more[..m];
      TerminalStays(After(steps + more[..m]), more[m]);
      NextInParts(After(steps + more[..m]), more[m]);
    }
  }

  /** What went through the terminal channel is never taken back. */
  lemma {:induction false} TerminalIsFinal(steps: seq<Step>, more: seq<Step>)
    requires After(steps).terminal.Some?
    ensures After(steps + more).terminal == After(steps).terminal
    decreases |more|
  {
    if more == [] {
      assert steps + more == steps;
    } else {
      var m := |more| - 1;
      TerminalIsFinal(steps, more[..m]);
      assert (steps + more)[..|steps| + m] == steps + more[..m];
      TerminalStays(After(steps + more[..m]), more[m]);
      NextInParts(After(steps + more[..m]), more[m]);
    }
  }

  lemma TerminalStays(s: State, step: Step)
    ensures s.terminal.Some? ==> NextTerminal(s, step) == s.terminal
    ensures s.reader.Aborted? ==>
              NextReader(s, step) == s.reader && NextTerminal(s, step) == s.terminal && NextErrors(s, step) == s.disconnectErrors
  {}

  // ------------------------------------------------------- the table as shared

  /** `ResponseState` behind its lock, with the channels of the requests. */
  class ResponseTable {
    var requests: seq<Request>
    var closed: bool
    var waiting: map<nat, nat>

    constructor ()
      ensures View() == Start.table
    {
      requests, closed, waiting := [], false, map[];
    }

    function View(): Table
      reads this
    {
      Table(requests, closed, waiting)
    }

    method Allocate() returns (r: nat)
      modifies `requests
      ensures View() == old(View()).Add() && r == |old(requests)|
    {
      r := |requests|;
      requests := requests + [Request(WireId(r), Allocated, Empty)];
    }

    method Insert(r: nat) returns (accepted: bool)
      requires View().Inv() && View().InPhase(r, Allocated)
      modifies this
      ensures View() == old(View()).Register(r) && View().Inv()
      ensures accepted == !closed
    {
      View().RegisterKeepsInv(r);
      if closed {
        requests := requests[r := requests[r].(phase := Done(ConnectionClosed))];
        return false;
      }
      var id := requests[r].id;
      if id in waiting {
        requests := requests[waiting[id] := requests[waiting[id]].(slot := Dropped)];
      }
      requests := requests[r := requests[r].(phase := Registered)];
      waiting := waiting[id := r];
      assert waiting == (old(waiting) - {id})[id := r];
      return true;
    }

    /** The reader's side of a response: take the sender out and send. */
    method Respond(id: nat, result: JsonResult, at: nat)
      requires View().Inv()
      modifies `requests, `waiting
      ensures View() == old(View()).Remove(id, Answered(result, at)) && View().Inv()
    {
      View().RemoveKeepsInv(id, Answered(result, at));
      if id in waiting {
        requests := requests[waiting[id] := requests[waiting[id]].(slot := Answered(result, at))];
        waiting := waiting - {id};
      }
    }

    /** End of output: close, then send the connection error to every waiting
        request; `interrupted` tells whether there was one. */
    method Close(at: nat) returns (interrupted: bool)
      requires View().Inv()
      modifies this
      ensures View() == old(View()).Close(at) && View().Inv()
      ensures interrupted == (old(waiting) != map[])
    {
      ghost var before := View();
      closed := true;
      interrupted := waiting != map[];
      assert requests == before.Released(waiting.Keys, at);
      while waiting != map[]
        modifies `requests, `waiting
        invariant waiting.Keys <= before.waiting.Keys && forall id :: id in waiting ==> waiting[id] == before.waiting[id]
        invariant requests == before.Released(waiting.Keys, at)
        decreases |waiting|
      {
        var id :| id in waiting;
        before.ReleaseOne(waiting.Keys, id, at);
        requests := requests[waiting[id] := requests[waiting[id]].(slot := Released(at))];
        assert (waiting - {id}).Keys == waiting.Keys - {id};
        waiting := waiting - {id};
      }
      before.CloseKeepsInv(at);
    }
  }
}
