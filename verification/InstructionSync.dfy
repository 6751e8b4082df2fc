/** Queued instructions of a remote run and the end of that run: `syncInstructions`,
    called by the poll and by `finishRun`, and the reports of the local thread
    (src/node/collaborationWorker.ts). */
module InstructionSync {
  import opened Wrappers

  /** Where a sync is with the instruction at the head of its list. `Sent`: the local
      daemon has the message, its answer is still awaited. */
  datatype Phase = Checking | Reporting | Sending | Sent | Deleting

  /** A sync: what is left of its list, and its phase. */
  datatype Sync = Sync(left: seq<string>, phase: Phase)

  /** An active run, one whose result is being published, and one that was taken out
      of the active runs. */
  datatype Stage = Active | Publishing | Removed

  /** The run's fields (`finishing` with the sync that `finishRun` waits for), the
      number of polls whose sync still waits for its list, and what the coordinator
      and the local daemon have seen: `sent` with how often. */
  datatype State = State(delivered: set<string>, continuation: bool, finishing: bool, finisher: Option<nat>, stage: Stage,
                         asked: nat, syncs: seq<Sync>, reported: set<string>, sent: multiset<string>, deleted: set<string>)

  const INITIAL := State({}, false, false, None, Active, 0, [], {}, multiset{}, {})

  datatype Step =
    | SyncBegins                          // a poll asks for the list of the run
    | Listed(instructions: seq<string>)   // ... and gets it
    | ListFails
    | Turn(sync: nat)                     // a sync goes on to its next await
    | Fails(sync: nat)                    // what it waits for fails
    | ThreadRuns                          // the local thread reports that it runs
    | ThreadStops                         // ... or that it has stopped, or `finishRun` is retried
    | FinishListed(instructions: seq<string>)
    | FinishListFails
    | FinishChecks
    | RunRemoved                          // the `finally` of `finishRun`

  /** The next piece of one sync, up to its next `await`. */
  function TurnOf(s: State, k: nat): State
    requires k < |s.syncs|
  {
    var sync := s.syncs[k];
    if sync.left == [] then s
    else
      var id := sync.left[0];
      match sync.phase
      case Checking =>
        s.(syncs := s.syncs[k := sync.(phase := if id in s.delivered then Deleting else Reporting)])
      case Reporting => s.(reported := s.reported + {id}, syncs := s.syncs[k := sync.(phase := Sending)])
      case Sending => s.(sent := s.sent + multiset{id}, syncs := s.syncs[k := sync.(phase := Sent)])
      case Sent =>
        s.(delivered := s.delivered + {id}, continuation := true, syncs := s.syncs[k := sync.(phase := Deleting)])
      case Deleting => s.(deleted := s.deleted + {id}, syncs := s.syncs[k := Sync(sync.left[1..], Checking)])
  }

  function Next(s: State, step: Step): State {
    match step
    case SyncBegins => if s.stage == Removed then s else s.(asked := s.asked + 1)
    case Listed(instructions) =>
      if s.asked == 0 then s else s.(asked := s.asked - 1, syncs := s.syncs + [Sync(instructions, Checking)])
    case ListFails => if s.asked == 0 then s else s.(asked := s.asked - 1)
    case Turn(k) => if k < |s.syncs| then TurnOf(s, k) else s
    case Fails(k) =>
      if k >= |s.syncs| then s
      else
        var over := s.(syncs := s.syncs[k := Sync([], Checking)]);
        if s.finisher == Some(k) then over.(finishing := false, finisher := None) else over
    case ThreadRuns => if Heard(s, step) then s.(continuation := false) else s
    case ThreadStops => if s.finishing || s.stage != Active then s else s.(finishing := true)
    case FinishListed(instructions) =>
      if AwaitsList(s) then s.(finisher := Some(|s.syncs|), syncs := s.syncs + [Sync(instructions, Checking)]) else s
    case FinishListFails => if AwaitsList(s) then s.(finishing := false) else s
    case FinishChecks =>
      if !ReadyToCheck(s) then s
      else if s.continuation then s.(finishing := false, finisher := None)
      else s.(stage := Publishing, finisher := None)
    case RunRemoved => if s.stage == Publishing then s.(stage := Removed) else s
  }

  /** This step is a report that the worker listens to: while a run is finishing it
      does not. */
  predicate Heard(s: State, step: Step) {
    step.ThreadRuns? && !s.finishing && s.stage == Active
  }

  /** `finishRun` waits for the list of its own sync. */
  predicate AwaitsList(s: State) {
    s.finishing && s.finisher.None? && s.stage == Active
  }

  /** `finishRun` has got through its own sync. */
  predicate ReadyToCheck(s: State) {
    && s.finishing && s.stage == Active
    && s.finisher.Some? && s.finisher.value < |s.syncs| && s.syncs[s.finisher.value].left == []
  }

  function After(s: State, steps: seq<Step>, n: nat): State
    requires n <= |steps|
  {
    if n == 0 then s else Next(After(s, steps, n - 1), steps[n - 1])
  }

  // ---------------------------------------------------------- order of one delivery

  ghost predicate InOrder(s: State) {
    && (forall id :: id in s.deleted ==> id in s.delivered)
    && (forall id :: id in s.delivered ==> id in s.sent)
    && (forall id :: id in s.sent ==> id in s.reported)
  }

  /** A sync that is about to send has reported; one that waits for the answer has
      sent; one that is about to delete has noted the delivery. */
  ghost predicate PhasesFit(s: State) {
    forall k :: 0 <= k < |s.syncs| && s.syncs[k].left != [] ==>
      && (s.syncs[k].phase == Sending ==> s.syncs[k].left[0] in s.reported)
      && (s.syncs[k].phase == Sent ==> s.syncs[k].left[0] in s.sent)
      && (s.syncs[k].phase == Deleting ==> s.syncs[k].left[0] in s.delivered)
  }

  lemma TurnKeepsOrder(s: State, k: nat)
    requires InOrder(s) && PhasesFit(s) && k < |s.syncs|
    ensures InOrder(TurnOf(s, k))
  {}

  lemma TurnKeepsPhases(s: State, k: nat)
    requires PhasesFit(s) && k < |s.syncs|
    ensures PhasesFit(TurnOf(s, k))
  {}

  lemma NextKeepsInv(s: State, step: Step)
    requires InOrder(s) && PhasesFit(s)
    ensures InOrder(Next(s, step)) && PhasesFit(Next(s, step))
  {
    if step.Turn? {
      if step.sync < |s.syncs| {
        TurnKeepsOrder(s, step.sync);
        TurnKeepsPhases(s, step.sync);
      }
    } else {
      OthersKeepInv(s, step);
    }
  }

  lemma OthersKeepInv(s: State, step: Step)
    requires InOrder(s) && PhasesFit(s) && !step.Turn?
    ensures InOrder(Next(s, step)) && PhasesFit(Next(s, step))
  {
    var next := Next(s, step);
    assert next.deleted == s.deleted && next.delivered == s.delivered && next.sent == s.sent && next.reported == s.reported;
    forall k | 0 <= k < |next.syncs| && next.syncs[k].left != [] && next.syncs[k].phase != Checking
      ensures k < |s.syncs| && next.syncs[k] == s.syncs[k]
    {}
  }

  /** Whatever syncs overlap and fail, and whatever the local thread reports: an
      instruction is deleted from the queue only after it was reported to the
      coordinator and sent locally. */
  lemma {:induction false} DeletedOnlyWhenSent(steps: seq<Step>, n: nat)
    requires n <= |steps|
    ensures InOrder(After(INITIAL, steps, n)) && PhasesFit(After(INITIAL, steps, n))
    ensures var s := After(INITIAL, steps, n);
            forall id :: id in s.deleted ==> id in s.reported && id in s.sent && id in s.delivered
  {
    if n > 0 {
      DeletedOnlyWhenSent(steps, n - 1);
      NextKeepsInv(After(INITIAL, steps, n - 1), steps[n - 1]);
    }
  }

  // ------------------------------------------------------------ the end of a run

  /** This step notes a delivery. */
  predicate Notes(s: State, step: Step) {
    step.Turn? && step.sync < |s.syncs| && s.syncs[step.sync].left != [] && s.syncs[step.sync].phase == Sent
  }

  predicate NoneHeard(s: State, steps: seq<Step>, i: nat, n: nat)
    requires i <= n <= |steps|
  {
    i == n || (!Heard(After(s, steps, n - 1), steps[n - 1]) && NoneHeard(s, steps, i, n - 1))
  }

  /** Step `i` noted a delivery, and no report was heard between it and step `n`. */
  predicate LastNoted(s: State, steps: seq<Step>, i: nat, n: nat)
    requires i < n <= |steps|
  {
    Notes(After(s, steps, i), steps[i]) && NoneHeard(s, steps, i + 1, n)
  }

  /** A delivery was noted, and no report heard since. */
  ghost predicate Unanswered(s: State, steps: seq<Step>, n: nat)
    requires n <= |steps|
  {
    exists i: nat :: i < n && LastNoted(s, steps, i, n)
  }

  /** The same, step by step. */
  predicate StillUnanswered(s: State, steps: seq<Step>, n: nat)
    requires n <= |steps|
  {
    n > 0
    && var before := After(s, steps, n - 1);
       Notes(before, steps[n - 1]) || (!Heard(before, steps[n - 1]) && StillUnanswered(s, steps, n - 1))
  }

  lemma {:induction false} UnansweredSince(s: State, steps: seq<Step>, n: nat) returns (i: nat)
    requires n <= |steps| && StillUnanswered(s, steps, n)
    ensures i < n && LastNoted(s, steps, i, n)
  {
    if Notes(After(s, steps, n - 1), steps[n - 1]) {
      i := n - 1;
    } else {
      i := UnansweredSince(s, steps, n - 1);
    }
  }

  lemma {:induction false} UnansweredUntil(s: State, steps: seq<Step>, i: nat, n: nat)
    requires i < n <= |steps| && LastNoted(s, steps, i, n)
    ensures StillUnanswered(s, steps, n)
  {
    if i < n - 1 {
      UnansweredUntil(s, steps, i, n - 1);
    }
  }

  lemma FlagStep(s: State, step: Step)
    ensures Next(s, step).continuation <==> Notes(s, step) || (s.continuation && !Heard(s, step))
    ensures s.continuation && s.stage == Active ==> Next(s, step).stage == Active
  {}

  lemma {:induction false} FlagFrom(s: State, steps: seq<Step>, n: nat)
    requires n <= |steps| && !s.continuation
    ensures After(s, steps, n).continuation <==> StillUnanswered(s, steps, n)
    decreases n
  {
    if n > 0 {
      FlagFrom(s, steps, n - 1);
      FlagFromStep(s, steps, n, After(s, steps, n - 1), steps[n - 1]);
    }
  }

  lemma FlagFromStep(s: State, steps: seq<Step>, n: nat, before: State, step: Step)
    requires 0 < n <= |steps| && before == After(s, steps, n - 1) && step == steps[n - 1]
    requires before.continuation <==> StillUnanswered(s, steps, n - 1)
    ensures After(s, steps, n).continuation <==> StillUnanswered(s, steps, n)
  {
    FlagStep(before, step);
    assert After(s, steps, n) == Next(before, step);
    assert StillUnanswered(s, steps, n) <==> Notes(before, step) || (!Heard(before, step) && StillUnanswered(s, steps, n - 1));
  }

  /** In every run the flag is set exactly if some delivery was noted and no report
      that the thread runs has been heard since. */
  lemma FlagMeansUnanswered(steps: seq<Step>, n: nat)
    requires n <= |steps|
    ensures After(INITIAL, steps, n).continuation <==> Unanswered(INITIAL, steps, n)
  {
    FlagFrom(INITIAL, steps, n);
    if StillUnanswered(INITIAL, steps, n) {
      var i := UnansweredSince(INITIAL, steps, n);
    }
    if i: nat :| i < n && LastNoted(INITIAL, steps, i, n) {
      UnansweredUntil(INITIAL, steps, i, n);
    }
  }

  /** So `finishRun`, once its own sync is through, ends the run exactly when every
      delivery has been followed by a report that was heard. */
  lemma RunEndsUnlessUnanswered(steps: seq<Step>, n: nat)
    requires n < |steps| && steps[n] == FinishChecks && ReadyToCheck(After(INITIAL, steps, n))
    ensures After(INITIAL, steps, n + 1).stage == Publishing <==> !Unanswered(INITIAL, steps, n)
  {
    FlagMeansUnanswered(steps, n);
  }

  /** And until such a report is heard the run does not end, whatever else happens. */
  lemma {:induction false} HeldUntilHeard(s: State, steps: seq<Step>, m: nat, n: nat)
    requires m <= n <= |steps| && NoneHeard(s, steps, m, n)
    requires After(s, steps, m).continuation && After(s, steps, m).stage == Active
    ensures After(s, steps, n).continuation && After(s, steps, n).stage == Active
  {
    if m < n {
      HeldUntilHeard(s, steps, m, n - 1);
      FlagStep(After(s, steps, n - 1), steps[n - 1]);
    }
  }

  /** A sync of `finishRun` itself that sends instruction `id`, and the report that
      the thread runs with it. */
  function FinalSending(id: string): seq<Step> {
    [ThreadStops, FinishListed([id]), Turn(0), Turn(0), Turn(0), Turn(0), Turn(0), ThreadRuns]
  }

  /** From the beginning on: that report comes while the run is finishing and is not
      heard. The run is then held, with nothing left to send, in every continuation
      until the thread reports once more. */
  lemma UnheardReportHoldsTheRun(id: string, steps: seq<Step>, n: nat)
    requires 8 <= n <= |steps| && steps[..8] == FinalSending(id) && NoneHeard(INITIAL, steps, 8, n)
    ensures var s := After(INITIAL, steps, 7);
            ReadyToCheck(s) && s.sent == multiset{id} && s.deleted == {id} && !Heard(s, steps[7])
    ensures After(INITIAL, steps, n).continuation && After(INITIAL, steps, n).stage == Active
  {
    FinalSendingEnds(INITIAL, id, steps);
    HeldUntilHeard(INITIAL, steps, 8, n);
  }

  lemma FinalSendingEnds(s: State, id: string, steps: seq<Step>)
    requires 8 <= |steps| && steps[..8] == FinalSending(id) && s == INITIAL
    ensures After(s, steps, 7) == FinalSync(id, [], Checking, {id}, multiset{id}, {id}, {id})
    ensures After(s, steps, 8) == After(s, steps, 7)
  {
    assert forall i :: 0 <= i < 8 ==> steps[i] == FinalSending(id)[i];
    FirstTwo(s, steps, id);
    NextThree(s, steps, id);
    LastThree(s, steps, id);
  }

  lemma FirstTwo(s: State, steps: seq<Step>, id: string)
    requires 8 <= |steps| && s == INITIAL && steps[0] == ThreadStops && steps[1] == FinishListed([id])
    ensures After(s, steps, 2) == FinalSync(id, [id], Checking, {}, multiset{}, {}, {})
  {
    FinalTurns(id);
    assert After(s, steps, 0) == s;
    AfterOne(s, steps, 0);
    AfterOne(s, steps, 1);
  }

  lemma NextThree(s: State, steps: seq<Step>, id: string)
    requires 8 <= |steps| && steps[2] == Turn(0) && steps[3] == Turn(0) && steps[4] == Turn(0)
    requires After(s, steps, 2) == FinalSync(id, [id], Checking, {}, multiset{}, {}, {})
    ensures After(s, steps, 5) == FinalSync(id, [id], Sent, {id}, multiset{id}, {}, {})
  {
    FinalTurns(id);
    AfterOne(s, steps, 2);
    AfterOne(s, steps, 3);
    AfterOne(s, steps, 4);
  }

  lemma LastThree(s: State, steps: seq<Step>, id: string)
    requires 8 <= |steps| && steps[5] == Turn(0) && steps[6] == Turn(0) && steps[7] == ThreadRuns
    requires After(s, steps, 5) == FinalSync(id, [id], Sent, {id}, multiset{id}, {}, {})
    ensures After(s, steps, 7) == FinalSync(id, [], Checking, {id}, multiset{id}, {id}, {id})
    ensures After(s, steps, 8) == After(s, steps, 7)
  {
    FinalTurns(id);
    AfterOne(s, steps, 5);
    AfterOne(s, steps, 6);
    AfterOne(s, steps, 7);
  }

  lemma AfterOne(s: State, steps: seq<Step>, n: nat)
    requires n < |steps|
    ensures After(s, steps, n + 1) == Next(After(s, steps, n), steps[n])
  {}

  /** The run while `finishRun` waits for its own sync, which alone is at work. */
  function FinalSync(id: string, left: seq<string>, phase: Phase, reported: set<string>, sent: multiset<string>,
                     delivered: set<string>, deleted: set<string>): State
  {
    State(delivered, delivered != {}, true, Some(0), Active, 0, [Sync(left, phase)], reported, sent, deleted)
  }

  lemma FinalTurns(id: string)
    ensures Next(Next(INITIAL, ThreadStops), FinishListed([id])) == FinalSync(id, [id], Checking, {}, multiset{}, {}, {})
    ensures Next(FinalSync(id, [id], Checking, {}, multiset{}, {}, {}), Turn(0)) == FinalSync(id, [id], Reporting, {}, multiset{}, {}, {})
    ensures Next(FinalSync(id, [id], Reporting, {}, multiset{}, {}, {}), Turn(0)) == FinalSync(id, [id], Sending, {id}, multiset{}, {}, {})
    ensures Next(FinalSync(id, [id], Sending, {id}, multiset{}, {}, {}), Turn(0)) == FinalSync(id, [id], Sent, {id}, multiset{id}, {}, {})
    ensures Next(FinalSync(id, [id], Sent, {id}, multiset{id}, {}, {}), Turn(0))
         == FinalSync(id, [id], Deleting, {id}, multiset{id}, {id}, {})
    ensures Next(FinalSync(id, [id], Deleting, {id}, multiset{id}, {id}, {}), Turn(0))
         == FinalSync(id, [], Checking, {id}, multiset{id}, {id}, {id})
  {
    assert multiset{} + multiset{id} == multiset{id} && [id][1..] == [];
  }

  // ------------------------------------------------------- at most once, and not

  /** A sync that is on its way to send `id`. */
  predicate WillSend(s: State, k: nat, id: string)
    requires k < |s.syncs|
  {
    s.syncs[k].left != [] && s.syncs[k].left[0] == id && (s.syncs[k].phase == Reporting || s.syncs[k].phase == Sending)
  }

  /** `id` is noted as delivered, and no sync is on its way to send it. */
  ghost predicate Done(s: State, id: string) {
    id in s.delivered && forall k :: 0 <= k < |s.syncs| ==> !WillSend(s, k, id)
  }

  lemma DoneTurn(s: State, id: string, j: nat)
    requires Done(s, id) && j < |s.syncs|
    ensures Done(TurnOf(s, j), id) && TurnOf(s, j).sent[id] == s.sent[id]
  {
    assert !WillSend(s, j, id);
    var next := TurnOf(s, j);
    assert !WillSend(next, j, id);
    forall k | 0 <= k < |next.syncs| ensures !WillSend(next, k, id) {
      if k != j { assert next.syncs[k] == s.syncs[k] && !WillSend(s, k, id); }
    }
  }

  lemma DoneStep(s: State, id: string, step: Step)
    requires Done(s, id)
    ensures Done(Next(s, step), id) && Next(s, step).sent[id] == s.sent[id]
  {
    if step.Turn? {
      if step.sync < |s.syncs| { DoneTurn(s, id, step.sync); }
    } else {
      DoneElse(s, id, step);
    }
  }

  lemma DoneElse(s: State, id: string, step: Step)
    requires Done(s, id) && !step.Turn?
    ensures Done(Next(s, step), id) && Next(s, step).sent == s.sent
  {
    var next := Next(s, step);
    forall k | 0 <= k < |next.syncs| ensures !WillSend(next, k, id) {
      if k < |s.syncs| { assert !WillSend(s, k, id); }
    }
  }

  /** A poll may still come with a list of this run. */
  predicate ListsMayCome(s: State) {
    s.stage != Removed || s.asked > 0
  }

  /** The sync comes to `id` before it has noted it as delivered. */
  predicate ComesTo(sync: Sync, id: string) {
    && sync.left != []
    && if sync.left[0] != id then id in sync.left
       else sync.phase != Sent && (sync.phase == Deleting ==> id in sync.left[1..])
  }

  predicate CanSend(s: State, k: nat, id: string)
    requires k < |s.syncs|
  {
    WillSend(s, k, id) || (id !in s.delivered && ComesTo(s.syncs[k], id))
  }

  /** `id` is not noted as delivered, and no sync can come to it any more. */
  ghost predicate OutOfReach(s: State, id: string) {
    id !in s.delivered && !ListsMayCome(s) && forall k :: 0 <= k < |s.syncs| ==> !CanSend(s, k, id)
  }

  lemma OutOfReachTurn(s: State, id: string, j: nat)
    requires OutOfReach(s, id) && j < |s.syncs|
    ensures OutOfReach(TurnOf(s, j), id) || Done(TurnOf(s, j), id)
    ensures TurnOf(s, j).sent[id] == s.sent[id]
  {
    var next := TurnOf(s, j);
    assert !CanSend(s, j, id);
    forall k | 0 <= k < |next.syncs| ensures !WillSend(next, k, id) && (id !in next.delivered ==> !ComesTo(next.syncs[k], id)) {
      if k != j { assert next.syncs[k] == s.syncs[k] && !CanSend(s, k, id); }
    }
  }

  lemma OutOfReachStep(s: State, id: string, step: Step)
    requires OutOfReach(s, id)
    ensures OutOfReach(Next(s, step), id) || Done(Next(s, step), id)
    ensures Next(s, step).sent[id] == s.sent[id]
  {
    if step.Turn? {
      if step.sync < |s.syncs| { OutOfReachTurn(s, id, step.sync); }
    } else {
      OutOfReachElse(s, id, step);
    }
  }

  lemma OutOfReachElse(s: State, id: string, step: Step)
    requires OutOfReach(s, id) && !step.Turn?
    ensures OutOfReach(Next(s, step), id) && Next(s, step).sent == s.sent
  {
    var next := Next(s, step);
    forall k | 0 <= k < |next.syncs| ensures !CanSend(next, k, id) {
      assert !CanSend(s, k, id);
    }
  }

  lemma {:induction false} NeverSentAgain(s: State, id: string, steps: seq<Step>, n: nat)
    requires n <= |steps| && (OutOfReach(s, id) || Done(s, id))
    ensures OutOfReach(After(s, steps, n), id) || Done(After(s, steps, n), id)
    ensures After(s, steps, n).sent[id] == s.sent[id]
  {
    if n > 0 {
      NeverSentAgain(s, id, steps, n - 1);
      var before := After(s, steps, n - 1);
      if Done(before, id) {
        DoneStep(before, id, steps[n - 1]);
      } else {
        OutOfReachStep(before, id, steps[n - 1]);
      }
    }
  }

  function Rank(phase: Phase): nat {
    match phase
    case Checking => 0
    case Reporting => 1
    case Sending => 2
    case Sent => 3
    case Deleting => 4
  }

  lemma {:induction false} AfterCons(s: State, step: Step, steps: seq<Step>, n: nat)
    requires n <= |steps|
    ensures After(s, [step] + steps, n + 1) == After(Next(s, step), steps, n)
  {
    AfterOne(s, [step] + steps, n);
    if n > 0 {
      AfterCons(s, step, steps, n - 1);
      AfterOne(Next(s, step), steps, n - 1);
    }
  }

  /** A sync that can send `id` does so if nothing fails. */
  lemma {:induction false} SyncSends(s: State, k: nat, id: string) returns (steps: seq<Step>)
    requires k < |s.syncs| && CanSend(s, k, id)
    ensures After(s, steps, |steps|).sent[id] > s.sent[id]
    decreases |s.syncs[k].left|, 5 - Rank(s.syncs[k].phase)
  {
    if s.syncs[k].left[0] == id && s.syncs[k].phase == Sending {
      steps := [Turn(k)];
      SendingTurn(s, k, id);
    } else {
      TurnTowards(s, k, id);
      var rest := SyncSends(TurnOf(s, k), k, id);
      steps := [Turn(k)] + rest;
      StepFirst(s, Turn(k), rest, id);
    }
  }

  lemma SendingTurn(s: State, k: nat, id: string)
    requires k < |s.syncs| && CanSend(s, k, id) && s.syncs[k].left[0] == id && s.syncs[k].phase == Sending
    ensures After(s, [Turn(k)], 1).sent[id] > s.sent[id]
  {
    AfterOne(s, [Turn(k)], 0);
  }

  lemma StepFirst(s: State, step: Step, rest: seq<Step>, id: string)
    ensures After(s, [step] + rest, |[step] + rest|).sent[id] == After(Next(s, step), rest, |rest|).sent[id]
  {
    AfterCons(s, step, rest, |rest|);
  }

  lemma TurnTowards(s: State, k: nat, id: string)
    requires k < |s.syncs| && CanSend(s, k, id) && (s.syncs[k].left[0] == id ==> s.syncs[k].phase != Sending)
    ensures var next := TurnOf(s, k);
            && k < |next.syncs| && CanSend(next, k, id) && next.sent[id] == s.sent[id]
            && (|next.syncs[k].left| < |s.syncs[k].left|
                || (next.syncs[k].left == s.syncs[k].left && Rank(next.syncs[k].phase) > Rank(s.syncs[k].phase)))
  {}

  lemma ListSends(s: State, id: string) returns (steps: seq<Step>)
    requires s.asked > 0 && id !in s.delivered
    ensures After(s, steps, |steps|).sent[id] > s.sent[id]
  {
    var listed := Next(s, Listed([id]));
    assert listed.syncs[|s.syncs|] == Sync([id], Checking);
    var rest := SyncSends(listed, |s.syncs|, id);
    StepFirst(s, Listed([id]), rest, id);
    steps := [Listed([id])] + rest;
  }

  lemma NewListSends(s: State, id: string) returns (steps: seq<Step>)
    requires ListsMayCome(s) && id !in s.delivered
    ensures After(s, steps, |steps|).sent[id] > s.sent[id]
  {
    if s.asked > 0 {
      steps := ListSends(s, id);
    } else {
      var rest := ListSends(Next(s, SyncBegins), id);
      StepFirst(s, SyncBegins, rest, id);
      steps := [SyncBegins] + rest;
    }
  }

  /** From any state, an instruction can be sent (once more, if it was before) exactly
      if a sync is on its way to send it, or it is not noted as delivered and a sync
      comes to it or may still be given a list with it, which no sync is once the run
      was taken out and no poll waits for its list. So it is sent twice by syncs that
      overlap at it, or when the answer to the first sending was still awaited, or
      lost. */
  lemma CanBeSentExactly(s: State, id: string)
    ensures (exists steps :: After(s, steps, |steps|).sent[id] > s.sent[id]) <==>
            || (exists k :: 0 <= k < |s.syncs| && CanSend(s, k, id))
            || (id !in s.delivered && ListsMayCome(s))
  {
    if k :| 0 <= k < |s.syncs| && CanSend(s, k, id) {
      var steps := SyncSends(s, k, id);
    } else if id !in s.delivered && ListsMayCome(s) {
      var steps := NewListSends(s, id);
    } else {
      assert OutOfReach(s, id) || Done(s, id) by {
        assert forall k :: 0 <= k < |s.syncs| ==> !CanSend(s, k, id) && !WillSend(s, k, id);
      }
      forall steps ensures After(s, steps, |steps|).sent[id] == s.sent[id] {
        NeverSentAgain(s, id, steps, |steps|);
      }
    }
  }

  /** No two syncs are at work at the same time, and no answer is lost. */
  predicate Serial(s: State, step: Step) {
    && (forall j, k :: 0 <= j < k < |s.syncs| ==> s.syncs[j].left == [] || s.syncs[k].left == [])
    && (step.Fails? && step.sync < |s.syncs| && s.syncs[step.sync].left != [] ==> s.syncs[step.sync].phase != Sent)
  }

  /** The first `n` steps of a run are serial. */
  predicate AllSerial(steps: seq<Step>, n: nat)
    requires n <= |steps|
  {
    n == 0 || (Serial(After(INITIAL, steps, n - 1), steps[n - 1]) && AllSerial(steps, n - 1))
  }

  predicate AwaitsAnswer(s: State, k: nat, id: string)
    requires k < |s.syncs|
  {
    s.syncs[k].left != [] && s.syncs[k].left[0] == id && s.syncs[k].phase == Sent
  }

  predicate NoneWillSend(s: State, id: string) {
    forall k :: 0 <= k < |s.syncs| ==> !WillSend(s, k, id)
  }

  /** `id` was not sent yet; or once, and sync `k` waits for the answer; or once, and
      it is done. */
  ghost predicate SentOnce(s: State, id: string) {
    || s.sent[id] == 0
    || (s.sent[id] == 1 && NoneWillSend(s, id) && (id in s.delivered || exists k :: 0 <= k < |s.syncs| && AwaitsAnswer(s, k, id)))
  }

  lemma FirstSending(s: State, k: nat, id: string)
    requires Serial(s, Turn(k)) && k < |s.syncs| && s.sent[id] == 0
    ensures SentOnce(TurnOf(s, k), id)
  {
    var next := TurnOf(s, k);
    if next.sent[id] != 0 {
      assert AwaitsAnswer(next, k, id);
      forall j | 0 <= j < |next.syncs| ensures !WillSend(next, j, id) {
        assert j != k ==> next.syncs[j] == s.syncs[j] && s.syncs[j].left == [];
      }
    }
  }

  lemma AnswerComes(s: State, k: nat, id: string)
    requires k < |s.syncs| && AwaitsAnswer(s, k, id) && NoneWillSend(s, id)
    ensures id in TurnOf(s, k).delivered && TurnOf(s, k).sent == s.sent && NoneWillSend(TurnOf(s, k), id)
  {
    var next := TurnOf(s, k);
    forall j | 0 <= j < |next.syncs| ensures !WillSend(next, j, id) {
      assert !WillSend(s, j, id);
    }
  }

  lemma StillAwaited(s: State, k: nat, id: string, step: Step)
    requires k < |s.syncs| && AwaitsAnswer(s, k, id) && NoneWillSend(s, id) && !step.Turn? && Serial(s, step)
    ensures var next := Next(s, step); k < |next.syncs| && AwaitsAnswer(next, k, id) && NoneWillSend(next, id) && next.sent == s.sent
  {
    var next := Next(s, step);
    forall j | 0 <= j < |next.syncs| ensures !WillSend(next, j, id) {
      if j < |s.syncs| { assert !WillSend(s, j, id); }
    }
  }

  lemma OnceStep(s: State, id: string, step: Step)
    requires SentOnce(s, id) && Serial(s, step)
    ensures SentOnce(Next(s, step), id)
  {
    if s.sent[id] == 0 {
      if step.Turn? && step.sync < |s.syncs| { FirstSending(s, step.sync, id); }
    } else if id in s.delivered {
      DoneStep(s, id, step);
    } else {
      var k :| 0 <= k < |s.syncs| && AwaitsAnswer(s, k, id);
      if !step.Turn? {
        StillAwaited(s, k, id, step);
      } else if step.sync == k {
        AnswerComes(s, k, id);
      } else {
        assert Next(s, step) == s;
      }
    }
  }

  /** As long as syncs do not overlap and no answer is lost, no instruction is sent
      twice. */
  lemma {:induction false} SerialSyncsSendOnce(steps: seq<Step>, n: nat, id: string)
    requires n <= |steps|
    requires AllSerial(steps, n)
    ensures SentOnce(After(INITIAL, steps, n), id)
    ensures After(INITIAL, steps, n).sent[id] <= 1
  {
    if n > 0 {
      SerialSyncsSendOnce(steps, n - 1, id);
      OnceStep(After(INITIAL, steps, n - 1), id, steps[n - 1]);
    }
  }

  // --------------------------------------------------------------------- the run

  /** The instruction fields of an active run, updated in place. */
  class RunInstructions {
    var delivered: set<string>
    var continuationExpected: bool
    var finishing: bool
    var finisher: Option<nat>
    var stage: Stage
    var asked: nat
    var syncs: seq<Sync>
    var reported: set<string>
    var sent: multiset<string>
    var deleted: set<string>

    constructor ()
      ensures Now() == INITIAL
    {
      delivered, continuationExpected, finishing, finisher, stage := {}, false, false, None, Active;
      asked, syncs, reported, sent, deleted := 0, [], {}, multiset{}, {};
    }

    function Now(): State
      reads this
    {
      State(delivered, continuationExpected, finishing, finisher, stage, asked, syncs, reported, sent, deleted)
    }

    /** `syncInstructions` up to its list ... */
    method BeginSync()
      requires stage != Removed
      modifies `asked
      ensures Now() == Next(old(Now()), SyncBegins)
    {
      asked := asked + 1;
    }

    /** ... and with it. */
    method OnListed(instructions: seq<string>)
      requires asked > 0
      modifies `asked, `syncs
      ensures Now() == Next(old(Now()), Listed(instructions))
    {
      asked, syncs := asked - 1, syncs + [Sync(instructions, Checking)];
    }

    /** The body of the loop of `syncInstructions`, up to its next `await`. */
    method Advance(k: nat)
      requires k < |syncs| && syncs[k].left != []
      modifies this
      ensures Now() == Next(old(Now()), Turn(k))
    {
      var sync := syncs[k];
      var id := sync.left[0];
      match sync.phase {
        case Checking =>
          var phase := Reporting;
          if id in delivered { phase := Deleting; }
          syncs := syncs[k := sync.(phase := phase)];
        case Reporting =>
          reported := reported + {id};
          syncs := syncs[k := sync.(phase := Sending)];
        case Sending =>
          sent := sent + multiset{id};
          syncs := syncs[k := sync.(phase := Sent)];
        case Sent =>
          delivered := delivered + {id};
          continuationExpected := true;
          syncs := syncs[k := sync.(phase := Deleting)];
        case Deleting =>
          deleted := deleted + {id};
          syncs := syncs[k := Sync(sync.left[1..], Checking)];
      }
    }

    /** `agent_thread_updated`: the local thread runs, or has stopped. */
    method OnThreadUpdated(running: bool)
      modifies `continuationExpected, `finishing
      ensures Now() == Next(old(Now()), if running then ThreadRuns else ThreadStops)
    {
      if finishing || stage != Active { return; }
      if running && continuationExpected { continuationExpected := false; }
      if !running { finishing := true; }
    }

    /** `finishRun` behind its own sync: whether it goes on to publish the result. */
    method OnFinishSynced() returns (ends: bool)
      requires ReadyToCheck(Now())
      modifies `finishing, `finisher, `stage
      ensures Now() == Next(old(Now()), FinishChecks) && ends == (stage == Publishing)
    {
      finisher := None;
      if continuationExpected {
        finishing := false;
        return false;
      }
      stage := Publishing;
      return true;
    }
  }
}
