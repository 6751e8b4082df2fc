/** The slots of a collaboration worker: `poll`, `claimAndRun`, the end of
    `finishRun` and `dispose` (src/node/collaborationWorker.ts). */
module WorkerSlots {
  const MAX_PARALLEL_ASSIGNMENTS := 4

  /** `claiming` are the assignments between their claim and their entry in
      `active`, `starting` those whose local run is being started; `threads` are all
      local threads made so far. */
  datatype State = State(disposed: bool, polling: bool, listed: bool, active: map<string, string>,
                         assignmentOf: map<string, string>, claiming: set<string>, starting: set<string>, threads: set<string>)

  const INITIAL := State(false, false, false, map[], map[], {}, {}, {})

  datatype Step =
    | PollStarts
    | Listed(queued: seq<string>)
    | PollFails
    | PollEnds
    | ClaimLost(id: string)
    | Prepared(id: string, thread: string)
    | PreparationFailed(id: string)
    | Started(id: string)
    | StartFailed(id: string)
    | RunFinishes(id: string)
    | Dispose

  function Available(s: State): nat {
    if |s.active| <= MAX_PARALLEL_ASSIGNMENTS then MAX_PARALLEL_ASSIGNMENTS - |s.active| else 0
  }

  function Take(queued: seq<string>, n: nat): seq<string> {
    if |queued| <= n then queued else queued[..n]
  }

  /** The assignments a poll goes for. */
  function Claimed(s: State, queued: seq<string>): set<string> {
    if s.disposed then {} else set id | id in Take(queued, Available(s)) && id !in s.active
  }

  predicate Enabled(s: State, step: Step) {
    match step
    case PollStarts => !s.polling && !s.disposed
    case Listed(_) => s.polling && !s.listed
    case PollFails => s.polling && !s.listed
    case PollEnds => s.polling && s.listed && s.claiming == {} && s.starting == {}
    case ClaimLost(id) => id in s.claiming
    case Prepared(id, thread) => id in s.claiming && thread !in s.threads
    case PreparationFailed(id) => id in s.claiming
    case Started(id) => id in s.starting
    case StartFailed(id) => id in s.starting
    case RunFinishes(id) => id in s.active
    case Dispose => true
  }

  function Next(s: State, step: Step): State {
    if !Enabled(s, step) then s
    else
      match step
      case PollStarts => s.(polling := true, listed := false)
      case Listed(queued) => s.(listed := true, claiming := Claimed(s, queued))
      case PollFails => s.(polling := false)
      case PollEnds => s.(polling := false)
      case ClaimLost(id) => s.(claiming := s.claiming - {id})
      case PreparationFailed(id) => s.(claiming := s.claiming - {id})
      case Prepared(id, thread) =>
        s.(claiming := s.claiming - {id}, starting := s.starting + {id}, active := s.active[id := thread],
           assignmentOf := s.assignmentOf[thread := id], threads := s.threads + {thread})
      case Started(id) => s.(starting := s.starting - {id})
      case StartFailed(id) => s.(starting := s.starting - {id})
      case RunFinishes(id) => s.(active := s.active - {id}, assignmentOf := s.assignmentOf - {s.active[id]})
      case Dispose => s.(disposed := true, active := map[], assignmentOf := map[])
  }

  function After(s: State, steps: seq<Step>, n: nat): State
    requires n <= |steps|
  {
    if n == 0 then s else Next(After(s, steps, n - 1), steps[n - 1])
  }

  /** The thread map is the inverse of the active map. */
  ghost predicate Inverse(s: State) {
    && (forall id :: id in s.active ==> s.active[id] in s.assignmentOf && s.assignmentOf[s.active[id]] == id)
    && (forall thread :: thread in s.assignmentOf ==>
          s.assignmentOf[thread] in s.active && s.active[s.assignmentOf[thread]] == thread)
  }

  ghost predicate Inv(s: State) {
    && Inverse(s)
    && (forall thread :: thread in s.assignmentOf ==> thread in s.threads)
    && s.claiming !! s.active.Keys
    && |s.active| + |s.claiming| <= MAX_PARALLEL_ASSIGNMENTS
    && (s.claiming != {} || s.starting != {} ==> s.polling && s.listed)
  }

  lemma {:induction false} AtMost(queued: seq<string>, n: nat)
    requires |queued| <= n
    ensures |set id | id in queued| <= n
  {
    if queued != [] {
      AtMost(queued[1..], n - 1);
      assert (set id | id in queued) == (set id | id in queued[1..]) + {queued[0]};
    } else {
      assert (set id | id in queued) == {};
    }
  }

  lemma SubsetIsSmaller(a: set<string>, b: set<string>)
    requires a <= b
    ensures |a| <= |b| && (|a| == |b| ==> a == b)
  {
    assert b == a + (b - a);
  }

  lemma ClaimsFit(s: State, queued: seq<string>)
    ensures |Claimed(s, queued)| <= Available(s)
    ensures Claimed(s, queued) !! s.active.Keys
  {
    var taken := Take(queued, Available(s));
    AtMost(taken, Available(s));
    SubsetIsSmaller(Claimed(s, queued), set id | id in taken);
  }

  lemma PreparedKeepsInv(s: State, id: string, thread: string)
    requires Inv(s) && Enabled(s, Prepared(id, thread))
    ensures Inv(Next(s, Prepared(id, thread)))
  {
    var now := Next(s, Prepared(id, thread));
    assert now.active.Keys == s.active.Keys + {id};
    assert |now.claiming| == |s.claiming| - 1;
  }

  lemma FinishKeepsInv(s: State, id: string)
    requires Inv(s) && id in s.active
    ensures Inv(Next(s, RunFinishes(id)))
  {
    var now := Next(s, RunFinishes(id));
    assert now.active.Keys == s.active.Keys - {id};
  }

  lemma ClaimGone(s: State, id: string)
    requires Inv(s) && id in s.claiming
    ensures Inv(s.(claiming := s.claiming - {id}))
  {
    assert |s.claiming - {id}| == |s.claiming| - 1;
  }

  lemma NextKeepsInv(s: State, step: Step)
    requires Inv(s)
    ensures Inv(Next(s, step))
  {
    if Enabled(s, step) {
      match step
      case Listed(queued) => ClaimsFit(s, queued);
      case Prepared(id, thread) => PreparedKeepsInv(s, id, thread);
      case ClaimLost(id) => ClaimGone(s, id);
      case PreparationFailed(id) => ClaimGone(s, id);
      case RunFinishes(id) => FinishKeepsInv(s, id);
      case _ =>
    }
  }

  /** Over all runs: never more than four assignments active or on their way to it,
      and the two maps are inverse to each other. */
  lemma {:induction false} SlotsAreKept(steps: seq<Step>, n: nat)
    requires n <= |steps|
    ensures var s := After(INITIAL, steps, n);
            Inv(s) && |s.active| + |s.claiming| <= MAX_PARALLEL_ASSIGNMENTS && Inverse(s)
  {
    if n > 0 {
      SlotsAreKept(steps, n - 1);
      NextKeepsInv(After(INITIAL, steps, n - 1), steps[n - 1]);
    }
  }

  /** From step `m` on, up to step `n`, no held slot is given up: none of the
      assignments active at step `m` finishes, and the worker is not disposed of. */
  ghost predicate NoneGivenUp(steps: seq<Step>, m: nat, n: nat)
    requires m <= n <= |steps|
  {
    forall i :: m <= i < n ==> steps[i] != Dispose && forall id :: id in After(INITIAL, steps, m).active ==> steps[i] != RunFinishes(id)
  }

  lemma StaysActive(s: State, step: Step, id: string)
    requires Inv(s) && id in s.active && step != RunFinishes(id) && step != Dispose
    ensures id in Next(s, step).active && Next(s, step).active[id] == s.active[id]
  {}

  /** Over every run an assignment keeps its slot and its thread until its own run
      finishes or the worker is disposed of, also if its local run could not be
      started. */
  lemma {:induction false} SlotsAreHeld(steps: seq<Step>, m: nat, n: nat, id: string)
    requires m <= n <= |steps| && id in After(INITIAL, steps, m).active
    requires forall i :: m <= i < n ==> steps[i] != RunFinishes(id) && steps[i] != Dispose
    ensures id in After(INITIAL, steps, n).active
    ensures After(INITIAL, steps, n).active[id] == After(INITIAL, steps, m).active[id]
  {
    if m < n {
      SlotsAreHeld(steps, m, n - 1, id);
      SlotsAreKept(steps, n - 1);
      StaysActive(After(INITIAL, steps, n - 1), steps[n - 1], id);
    }
  }

  /** So four slots that are not given up block the worker: no poll, now or later,
      claims anything, and nothing else becomes active. */
  lemma FullWorkerClaimsNothing(steps: seq<Step>, m: nat, n: nat)
    requires m <= n <= |steps| && |After(INITIAL, steps, m).active| == MAX_PARALLEL_ASSIGNMENTS && NoneGivenUp(steps, m, n)
    ensures After(INITIAL, steps, n).claiming == {} && After(INITIAL, steps, n).active == After(INITIAL, steps, m).active
    ensures forall queued :: Claimed(After(INITIAL, steps, n), queued) == {}
  {
    var before, now := After(INITIAL, steps, m), After(INITIAL, steps, n);
    SlotsAreKept(steps, n);
    forall id | id in before.active ensures id in now.active && now.active[id] == before.active[id] {
      SlotsAreHeld(steps, m, n, id);
    }
    assert before.active.Keys <= now.active.Keys;
    SubsetIsSmaller(before.active.Keys, now.active.Keys);
    assert |before.active.Keys| == |before.active| && |now.active.Keys| == |now.active|;
    assert now.active.Keys == before.active.Keys;
    assert |now.claiming| == 0;
    forall queued ensures Claimed(now, queued) == {} {
      ClaimsFit(now, queued);
    }
  }

  // ------------------------------------------------------------------ the worker

  /** The worker's maps and flags, updated in place. */
  class CollaborationWorker {
    var disposed: bool
    var polling: bool
    var listed: bool
    var active: map<string, string>
    var localThreadToAssignment: map<string, string>
    var claiming: set<string>
    var starting: set<string>
    var threads: set<string>

    constructor ()
      ensures Now() == INITIAL
    {
      disposed, polling, listed := false, false, false;
      active, localThreadToAssignment, claiming, starting, threads := map[], map[], {}, {}, {};
    }

    function Now(): State
      reads this
    {
      State(disposed, polling, listed, active, localThreadToAssignment, claiming, starting, threads)
    }

    method StartPoll() returns (started: bool)
      modifies this
      ensures Now() == Next(old(Now()), PollStarts) && started == Enabled(old(Now()), PollStarts)
    {
      if polling || disposed { return false; }
      polling, listed := true, false;
      return true;
    }

    /** Of a poll's slice, what `claimAndRun` does not turn away at once. */
    method Admit(slice: seq<string>) returns (going: set<string>)
      ensures going == if disposed then {} else set id | id in slice && id !in active
    {
      going := {};
      for i := 0 to |slice|
        invariant going == if disposed then {} else set id | id in slice[..i] && id !in active
      {
        assert slice[..i + 1] == slice[..i] + [slice[i]];
        if !(slice[i] in active || disposed) { going := going + {slice[i]}; }
      }
      assert slice[..|slice|] == slice;
    }

    /** `poll` with its list: claims start for what fits. */
    method OnListed(queued: seq<string>)
      requires polling && !listed
      modifies this
      ensures Now() == Next(old(Now()), Listed(queued))
    {
      var going := Admit(Take(queued, Available(Now())));
      listed, claiming := true, going;
    }

    method OnPrepared(id: string, thread: string)
      requires id in claiming && thread !in threads && Inv(Now())
      modifies this
      ensures Now() == Next(old(Now()), Prepared(id, thread)) && Inv(Now())
    {
      NextKeepsInv(Now(), Prepared(id, thread));
      claiming, starting := claiming - {id}, starting + {id};
      active := active[id := thread];
      localThreadToAssignment := localThreadToAssignment[thread := id];
      threads := threads + {thread};
    }

    /** The `finally` of `finishRun`. */
    method OnFinished(id: string)
      requires id in active && Inv(Now())
      modifies this
      ensures Now() == Next(old(Now()), RunFinishes(id)) && Inv(Now())
    {
      NextKeepsInv(Now(), RunFinishes(id));
      var thread := active[id];
      active := active - {id};
      localThreadToAssignment := localThreadToAssignment - {thread};
    }

    method DisposeWorker()
      requires Inv(Now())
      modifies this
      ensures Now() == Next(old(Now()), Step.Dispose) && Inv(Now())
    {
      disposed, active, localThreadToAssignment := true, map[], map[];
    }
  }
}
