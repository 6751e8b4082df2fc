/** Coalesced refreshes: `refresh`, and `loadDiff` with a thread's diff in place of
    the snapshot (src/node/workbenchController.ts). */
module RefreshLoop {
  import opened Wrappers

  /** A snapshot: how many requests had been made when it began, and the error it
      shows. */
  datatype Snapshot = Snapshot(asOf: nat, error: Option<string>)

  /** `refreshInflight`: `Left` until the `finally` behind the loop has run. */
  datatype Loop = Idle | Reading(snapshot: Snapshot) | Left

  datatype State = State(disposed: bool, queued: bool, error: Option<string>, loop: Loop, requests: nat,
                         shown: Option<Snapshot>)

  const INITIAL := State(false, false, None, Idle, 0, None)

  datatype Step =
    | Request(error: Option<string>)
    | SnapshotRead
    | SnapshotFailed
    | SlotCleared
    | Dispose

  /** The top of the loop: a snapshot begins. */
  function Begin(s: State): State {
    s.(queued := false, error := None, loop := Reading(Snapshot(s.requests, s.error)))
  }

  function Next(s: State, step: Step): State {
    match step
    case Request(e) =>
      if s.disposed then s
      else
        var asked := s.(queued := true, error := if e.Some? then e else s.error, requests := s.requests + 1);
        if s.loop.Idle? then Begin(asked) else asked
    case SnapshotRead =>
      if !s.loop.Reading? then s
      else
        var done := if s.disposed then s else s.(shown := Some(s.loop.snapshot));
        if s.queued && !s.disposed then Begin(done) else done.(loop := Left)
    case SnapshotFailed => if s.loop.Reading? then s.(loop := Left) else s
    case SlotCleared => if s.loop.Left? then s.(loop := Idle) else s
    case Dispose => s.(disposed := true)
  }

  function After(s: State, steps: seq<Step>, n: nat): State
    requires n <= |steps|
  {
    if n == 0 then s else Next(After(s, steps, n - 1), steps[n - 1])
  }

  // -------------------------------------------------------------- the invariant

  ghost predicate Inv(s: State) {
    && (s.loop.Reading? ==> s.loop.snapshot.asOf <= s.requests && (!s.queued ==> s.loop.snapshot.asOf == s.requests))
    && (s.shown.Some? ==> s.shown.value.asOf <= s.requests)
    && (s.loop.Reading? && s.shown.Some? ==> s.shown.value.asOf <= s.loop.snapshot.asOf)
  }

  lemma {:induction false} RunKeepsInv(s: State, steps: seq<Step>, n: nat)
    requires Inv(s) && n <= |steps|
    ensures Inv(After(s, steps, n))
  {
    if n > 0 {
      RunKeepsInv(s, steps, n - 1);
    }
  }

  lemma InitialInv()
    ensures Inv(INITIAL)
  {}

  // --------------------------------------------------------------- main results

  /** In every run, what is shown never gets older, and whenever the loop is left
      without a failure and without being disposed, what is shown began after every
      request made so far. */
  lemma LoopLeavesNoRequest(steps: seq<Step>, n: nat)
    requires n < |steps|
    ensures var s, now := After(INITIAL, steps, n), After(INITIAL, steps, n + 1);
            && (s.shown.Some? ==> now.shown.Some? && s.shown.value.asOf <= now.shown.value.asOf)
            && (s.loop.Reading? && now.loop.Left? && steps[n].SnapshotRead? && !s.disposed ==>
                  now.shown.Some? && now.shown.value.asOf == now.requests)
  {
    InitialInv();
    RunKeepsInv(INITIAL, steps, n);
    RunKeepsInv(INITIAL, steps, n + 1);
  }

  /** A run in which snapshots succeed and nothing else is asked for. */
  predicate Undisturbed(steps: seq<Step>) {
    forall i :: 0 <= i < |steps| ==> steps[i].SnapshotRead? || steps[i].SlotCleared?
  }

  /** A request in the moment between the end of the loop and the clearing of its
      slot. */
  predicate InGap(s: State) {
    s.loop.Left?
  }

  /** A request that does not come in the gap is followed by a snapshot that begins
      after it: after two reads it is shown. */
  lemma RequestIsFollowed(s: State, e: Option<string>)
    requires Inv(s) && !s.disposed && !InGap(s)
    ensures var steps := [SnapshotRead, SnapshotRead];
            var now := After(Next(s, Request(e)), steps, 2);
            && Undisturbed(steps) && now.shown.Some? && now.shown.value.asOf == s.requests + 1
            && (e.Some? && s.loop.Reading? ==> now.shown.value.error == e)
            && (e.Some? && s.loop.Idle? ==> now.shown.value.error == e)
  {
    var begin := Next(s, Request(e));
    var steps := [SnapshotRead, SnapshotRead];
    var one := Next(begin, steps[0]);
    assert After(begin, steps, 1) == one;
    assert After(begin, steps, 2) == Next(one, steps[1]);
  }

  /** A request in the gap is not: until the next request no snapshot begins. */
  lemma {:induction false} RequestInGapWaits(s: State, e: Option<string>, steps: seq<Step>, n: nat)
    requires Inv(s) && !s.disposed && InGap(s) && Undisturbed(steps) && n <= |steps|
    ensures var now := After(Next(s, Request(e)), steps, n);
            !now.loop.Reading? && now.shown == s.shown && now.requests == s.requests + 1
  {
    if n > 0 {
      RequestInGapWaits(s, e, steps, n - 1);
    }
  }

  /** A request is followed, before anything else is asked for, exactly when it does
      not come in the gap. */
  lemma FollowedUnlessInGap(s: State, e: Option<string>)
    requires Inv(s) && !s.disposed
    ensures (exists steps :: Undisturbed(steps) && Shows(After(Next(s, Request(e)), steps, |steps|), s.requests + 1))
            <==> !InGap(s)
  {
    if InGap(s) {
      forall steps | Undisturbed(steps) ensures !Shows(After(Next(s, Request(e)), steps, |steps|), s.requests + 1) {
        RequestInGapWaits(s, e, steps, |steps|);
      }
    } else {
      RequestIsFollowed(s, e);
      assert Shows(After(Next(s, Request(e)), [SnapshotRead, SnapshotRead], 2), s.requests + 1);
    }
  }

  predicate Shows(s: State, request: nat) {
    s.shown.Some? && s.shown.value.asOf >= request
  }

  // -------------------------------------------------------------- the controller

  /** The controller's refresh fields, updated in place. */
  class Refresher {
    var disposed: bool
    var refreshQueued: bool
    var refreshError: Option<string>
    var refreshInflight: Loop
    var requests: nat
    var lastSnapshot: Option<Snapshot>

    constructor ()
      ensures Now() == INITIAL
    {
      disposed, refreshQueued, refreshError, refreshInflight := false, false, None, Idle;
      requests, lastSnapshot := 0, None;
    }

    function Now(): State
      reads this
    {
      State(disposed, refreshQueued, refreshError, refreshInflight, requests, lastSnapshot)
    }

    method Refresh(error: Option<string>)
      modifies this
      ensures Now() == Next(old(Now()), Request(error))
    {
      if disposed { return; }
      if error.Some? { refreshError := error; }
      refreshQueued, requests := true, requests + 1;
      if !refreshInflight.Idle? { return; }
      BeginSnapshot();
    }

    /** The top of the loop, up to its `await`. */
    method BeginSnapshot()
      modifies this
      ensures Now() == Begin(old(Now()))
    {
      refreshQueued := false;
      var nextError := refreshError;
      refreshError := None;
      refreshInflight := Reading(Snapshot(requests, nextError));
    }

    /** The rest of the loop's body, and its condition. */
    method OnSnapshot()
      requires refreshInflight.Reading?
      modifies this
      ensures Now() == Next(old(Now()), SnapshotRead)
    {
      if !disposed { lastSnapshot := Some(refreshInflight.snapshot); }
      if refreshQueued && !disposed {
        BeginSnapshot();
      } else {
        refreshInflight := Left;
      }
    }

    method OnLoopLeft()
      requires refreshInflight.Left?
      modifies this
      ensures Now() == Next(old(Now()), SlotCleared)
    {
      refreshInflight := Idle;
    }
  }
}
