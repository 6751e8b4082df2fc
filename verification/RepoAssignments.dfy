/** Coalesced repository writes of one thread: `assignRepos` and
    `drainRepoAssignments` (src/node/workbenchController.ts). */
module RepoAssignments {
  import opened Wrappers

  type Selection = seq<string>

  /** Where a drain is. `Resolved` and `Rejected` are over, but keep their slot
      until the `finally` behind them has run. */
  datatype Drain = Writing(selection: Selection) | Refreshing | Resolved | Rejected

  predicate Over(d: Drain) {
    d.Resolved? || d.Rejected?
  }

  /** `inFlight` is the drain new calls join; `persisted` is what the daemon was
      last told with success, `last` what was last asked for. */
  datatype State = State(pending: Option<Selection>, inFlight: Option<nat>, drains: seq<Drain>,
                         persisted: Option<Selection>, last: Option<Selection>)

  const INITIAL := State(None, None, [], None, None)

  /** A step names the drain that takes it. */
  datatype Step =
    | Assign(selection: Selection)
    | Written(id: nat)
    | WriteFailed(id: nat)
    | Refreshed(id: nat)
    | RefreshFailed(id: nat)
    | SlotCleared(id: nat)

  predicate Enabled(s: State, step: Step) {
    match step
    case Assign(_) => true
    case Written(id) => id < |s.drains| && s.drains[id].Writing?
    case WriteFailed(id) => id < |s.drains| && s.drains[id].Writing?
    case Refreshed(id) => id < |s.drains| && s.drains[id].Refreshing?
    case RefreshFailed(id) => id < |s.drains| && s.drains[id].Refreshing?
    case SlotCleared(id) => id < |s.drains| && Over(s.drains[id]) && s.inFlight == Some(id)
  }

  /** The next turn of a drain's loop: write what is pending, or go on to `idle`. */
  function Turn(s: State, id: nat, idle: Drain): State
    requires id < |s.drains|
  {
    if s.pending.Some? then s.(pending := None, drains := s.drains[id := Writing(s.pending.value)])
    else s.(drains := s.drains[id := idle])
  }

  function Next(s: State, step: Step): State {
    if !Enabled(s, step) then s
    else
      match step
      case Assign(v) =>
        var asked := s.(pending := Some(v), last := Some(v));
        if s.inFlight.Some? then asked
        else
          var id := |s.drains|;
          Turn(asked.(inFlight := Some(id), drains := s.drains + [Refreshing]), id, Refreshing)
      case Written(id) => Turn(s.(persisted := Some(s.drains[id].selection)), id, Refreshing)
      case Refreshed(id) => Turn(s, id, Resolved)
      case WriteFailed(id) => s.(pending := None, drains := s.drains[id := Rejected])
      case RefreshFailed(id) => s.(pending := None, drains := s.drains[id := Rejected])
      case SlotCleared(_) => s.(inFlight := None)
  }

  function After(s: State, steps: seq<Step>, n: nat): State
    requires n <= |steps|
  {
    if n == 0 then s else Next(After(s, steps, n - 1), steps[n - 1])
  }

  // -------------------------------------------------------------- the invariant

  /** A call that comes between the end of a drain and the clearing of its slot. */
  predicate InGap(s: State) {
    s.inFlight.Some? && s.inFlight.value < |s.drains| && Over(s.drains[s.inFlight.value])
  }

  /** What is asked for last, seen from the drain in flight. */
  predicate Tracks(s: State, d: Drain) {
    match d
    case Writing(v) => s.last == if s.pending.Some? then s.pending else Some(v)
    case Refreshing => s.last == if s.pending.Some? then s.pending else s.persisted
    case _ => true
  }

  ghost predicate Inv(s: State) {
    && (s.inFlight.Some? ==> s.inFlight.value < |s.drains| && Tracks(s, s.drains[s.inFlight.value]))
    && (forall id :: 0 <= id < |s.drains| && !Over(s.drains[id]) ==> s.inFlight == Some(id))
  }

  lemma NextKeepsInv(s: State, step: Step)
    requires Inv(s)
    ensures Inv(Next(s, step))
  {}

  lemma {:induction false} RunKeepsInv(steps: seq<Step>, n: nat)
    requires n <= |steps|
    ensures Inv(After(INITIAL, steps, n))
  {
    if n > 0 {
      RunKeepsInv(steps, n - 1);
      NextKeepsInv(After(INITIAL, steps, n - 1), steps[n - 1]);
    }
  }

  // --------------------------------------------------------------- main results

  /** In every run at most one write is in flight. */
  lemma OneWriteAtATime(steps: seq<Step>, a: nat, b: nat)
    requires var s := After(INITIAL, steps, |steps|);
             a < |s.drains| && b < |s.drains| && s.drains[a].Writing? && s.drains[b].Writing?
    ensures a == b
  {
    RunKeepsInv(steps, |steps|);
  }

  /** In every run, whenever the shared promise resolves, the daemon holds what was
      asked for last and nothing is pending. */
  lemma ResolvesWithLastRequest(steps: seq<Step>, n: nat, id: nat)
    requires n < |steps|
    requires var s, now := After(INITIAL, steps, n), After(INITIAL, steps, n + 1);
             id < |s.drains| && !s.drains[id].Resolved? && now.drains[id].Resolved?
    ensures var now := After(INITIAL, steps, n + 1);
            now.last.Some? && now.persisted == now.last && now.pending.None?
  {
    RunKeepsInv(steps, n);
    LastIsKnown(steps, n);
  }

  lemma {:induction false} LastIsKnown(steps: seq<Step>, n: nat)
    requires n <= |steps|
    ensures After(INITIAL, steps, n).drains != [] ==> After(INITIAL, steps, n).last.Some?
  {
    if n > 0 {
      LastIsKnown(steps, n - 1);
    }
  }

  /** The drain a call joins or starts. */
  function Joined(s: State): nat {
    if s.inFlight.Some? then s.inFlight.value else |s.drains|
  }

  predicate Quiet(steps: seq<Step>) {
    forall i :: 0 <= i < |steps| ==> !steps[i].Assign?
  }

  /** Selection `v` will be what drain `id` persists, if it is not rejected. */
  predicate Served(s: State, id: nat, v: Selection) {
    && id < |s.drains|
    && match s.drains[id]
       case Writing(u) => s.pending == Some(v) || (s.pending.None? && u == v)
       case Refreshing => s.pending == Some(v) || (s.pending.None? && s.persisted == Some(v))
       case Resolved => s.pending.None? && s.persisted == Some(v)
       case Rejected => s.pending.None?
  }

  lemma ServedStep(s: State, id: nat, v: Selection, step: Step)
    requires Inv(s) && Served(s, id, v) && !step.Assign?
    requires forall other :: 0 <= other < |s.drains| && other != id ==> Over(s.drains[other])
    ensures Served(Next(s, step), id, v)
    ensures forall other :: 0 <= other < |Next(s, step).drains| && other != id ==> Over(Next(s, step).drains[other])
  {}

  /** Until something else is asked for, the call made last is served by the drain
      it joined or started: when that drain resolves, its selection is persisted.
      This holds of every call that does not come in the gap. */
  lemma {:induction false} CallIsServed(s: State, v: Selection, steps: seq<Step>, n: nat)
    requires Inv(s) && !InGap(s) && Quiet(steps) && n <= |steps|
    ensures var now := After(Next(s, Assign(v)), steps, n);
            && Inv(now) && Served(now, Joined(s), v)
            && forall other :: 0 <= other < |now.drains| && other != Joined(s) ==> Over(now.drains[other])
  {
    NextKeepsInv(s, Assign(v));
    if n > 0 {
      CallIsServed(s, v, steps, n - 1);
      var before := After(Next(s, Assign(v)), steps, n - 1);
      NextKeepsInv(before, steps[n - 1]);
      ServedStep(before, Joined(s), v, steps[n - 1]);
    }
  }

  predicate AllOver(s: State) {
    forall id :: 0 <= id < |s.drains| ==> Over(s.drains[id])
  }

  /** A call in the gap gets a promise that is already over, and until the next call
      its selection only waits: nothing is written. */
  lemma {:induction false} CallInGapOnlyWaits(s: State, v: Selection, steps: seq<Step>, n: nat)
    requires Inv(s) && InGap(s) && Quiet(steps) && n <= |steps|
    ensures var now := After(Next(s, Assign(v)), steps, n);
            AllOver(now) && now.drains == s.drains && now.pending == Some(v) && now.persisted == s.persisted
  {
    if n > 0 {
      CallInGapOnlyWaits(s, v, steps, n - 1);
    }
  }

  /** The steps in which the drain of a call writes its selection. */
  function Serving(s: State): seq<Step>
    requires s.inFlight.Some? ==> s.inFlight.value < |s.drains|
  {
    var id := Joined(s);
    if s.inFlight.None? then [Written(id)]
    else if s.drains[id].Writing? then [Written(id), Written(id)]
    else [Refreshed(id), Written(id)]
  }

  lemma ServingWrites(s: State, v: Selection)
    requires Inv(s) && !InGap(s)
    ensures Quiet(Serving(s)) && After(Next(s, Assign(v)), Serving(s), |Serving(s)|).persisted == Some(v)
  {
    var begin := Next(s, Assign(v));
    var steps := Serving(s);
    var one := Next(begin, steps[0]);
    assert After(begin, steps, 1) == one;
    if |steps| == 2 {
      assert one.drains[Joined(s)] == Writing(v);
      assert After(begin, steps, 2) == Next(one, steps[1]);
    }
  }

  /** A selection that is not persisted yet can be, before the next call, exactly
      when its call does not come in the gap. */
  lemma WrittenUnlessInGap(s: State, v: Selection)
    requires Inv(s) && s.persisted != Some(v)
    ensures (exists steps :: Quiet(steps) && After(Next(s, Assign(v)), steps, |steps|).persisted == Some(v)) <==> !InGap(s)
  {
    if InGap(s) {
      forall steps | Quiet(steps) ensures After(Next(s, Assign(v)), steps, |steps|).persisted != Some(v) {
        CallInGapOnlyWaits(s, v, steps, |steps|);
      }
    } else {
      ServingWrites(s, v);
    }
  }

  // -------------------------------------------------------------- the controller

  /** The controller's two maps at one thread, updated in place. */
  class AssignmentQueue {
    var pending: Option<Selection>
    var inFlight: Option<nat>
    var drains: seq<Drain>
    var persisted: Option<Selection>
    var last: Option<Selection>

    constructor ()
      ensures Now() == INITIAL
    {
      pending, inFlight, drains, persisted, last := None, None, [], None, None;
    }

    function Now(): State
      reads this
    {
      State(pending, inFlight, drains, persisted, last)
    }

    /** `assignRepos`: the id of the drain whose promise the caller gets. */
    method AssignRepos(selection: Selection) returns (id: nat)
      modifies this
      ensures Now() == Next(old(Now()), Assign(selection)) && id == Joined(old(Now()))
    {
      pending, last := Some(selection), Some(selection);
      if inFlight.Some? {
        return inFlight.value;
      }
      id := |drains|;
      inFlight, drains := Some(id), drains + [Refreshing];
      Drain(id, Refreshing);
    }

    /** The loop of `drainRepoAssignments` up to its next `await`. */
    method Drain(id: nat, idle: Drain)
      requires id < |drains|
      modifies `pending, `drains
      ensures Now() == Turn(old(Now()), id, idle)
    {
      if pending.Some? {
        drains := drains[id := Writing(pending.value)];
        pending := None;
      } else {
        drains := drains[id := idle];
      }
    }

    method OnWritten(id: nat)
      requires id < |drains| && drains[id].Writing?
      modifies this
      ensures Now() == Next(old(Now()), Written(id))
    {
      persisted := Some(drains[id].selection);
      Drain(id, Refreshing);
    }

    /** After `refresh`: a selection may have arrived meanwhile. */
    method OnRefreshed(id: nat)
      requires id < |drains| && drains[id].Refreshing?
      modifies this
      ensures Now() == Next(old(Now()), Refreshed(id))
    {
      Drain(id, Resolved);
    }

    method OnFailed(id: nat)
      requires id < |drains| && !Over(drains[id])
      modifies this
      ensures Now() == Next(old(Now()), if old(drains[id]).Writing? then WriteFailed(id) else RefreshFailed(id))
    {
      pending := None;
      drains := drains[id := Rejected];
    }

    method OnSettled(id: nat)
      requires id < |drains| && Over(drains[id]) && inFlight == Some(id)
      modifies `inFlight
      ensures Now() == Next(old(Now()), SlotCleared(id))
    {
      inFlight := None;
    }
  }
}
