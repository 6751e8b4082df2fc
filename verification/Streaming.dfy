/** Coalescing of live transcript events: `createEventBatcher` and
    `mergeThreadEvents` (webview/src/streaming.ts). */
module Streaming {
  import opened Wrappers

  /** `data.streaming`; `Unset` when it is not a boolean. */
  datatype Flag = Streaming | Completed | Unset

  datatype Event = Event(id: string, flag: Flag, text: Option<string>, rest: string)

  function TextLength(e: Event): nat {
    if e.text.Some? then |e.text.value| else 0
  }

  /** The row on screen keeps its place against an older snapshot of itself: a
      completion is not undone and streamed text does not get shorter. */
  predicate Keeps(current: Event, update: Event) {
    || (current.flag == Completed && update.flag == Streaming)
    || (current.flag == Streaming && update.flag == Streaming && TextLength(update) < TextLength(current))
  }

  function Choose(current: Event, update: Event): Event {
    if Keeps(current, update) then current else update
  }

  /** Merging three snapshots of a row in either grouping differs exactly when
      the middle one lacks the flag and the outer two would not both be shown. */
  lemma ChooseAssociates(a: Event, b: Event, c: Event)
    ensures Choose(Choose(a, b), c) == Choose(a, Choose(b, c)) <==> !(b.flag == Unset && Keeps(a, c) && a != c)
  {}

  // ------------------------------------------------------ insertion-ordered maps

  /** A JavaScript `Map` from ids to events, as its entries in insertion order. */
  type EventMap = seq<Event>

  ghost predicate DistinctIds(m: EventMap) {
    m == [] || ((forall x :: x in m[1..] ==> x.id != m[0].id) && DistinctIds(m[1..]))
  }

  function Lookup(m: EventMap, id: string): (e: Option<Event>)
    ensures e.Some? ==> e.value in m && e.value.id == id
    ensures e.None? ==> forall x :: x in m ==> x.id != id
  {
    if m == [] then None else if m[0].id == id then Some(m[0]) else Lookup(m[1..], id)
  }

  /** `set`: a known id keeps its place. */
  function Put(m: EventMap, e: Event): EventMap {
    if m == [] then [e] else if m[0].id == e.id then [e] + m[1..] else [m[0]] + Put(m[1..], e)
  }

  function Delete(m: EventMap, id: string): EventMap {
    if m == [] then [] else if m[0].id == id then m[1..] else [m[0]] + Delete(m[1..], id)
  }

  function MapOf(updates: seq<Event>): EventMap {
    if updates == [] then [] else Put(MapOf(updates[..|updates| - 1]), updates[|updates| - 1])
  }

  lemma {:induction false} PutKeepsDistinct(m: EventMap, e: Event)
    requires DistinctIds(m)
    ensures DistinctIds(Put(m, e))
    ensures forall x :: x in Put(m, e) ==> x == e || x in m
  {
    if m != [] && m[0].id != e.id {
      PutKeepsDistinct(m[1..], e);
    }
  }

  lemma {:induction false} DeleteRemoves(m: EventMap, id: string)
    requires DistinctIds(m)
    ensures DistinctIds(Delete(m, id)) && Lookup(Delete(m, id), id) == None
    ensures forall x :: x in Delete(m, id) ==> x in m
  {
    if m != [] && m[0].id != id {
      DeleteRemoves(m[1..], id);
    }
  }

  lemma {:induction false} MapOfIsDistinct(updates: seq<Event>)
    ensures DistinctIds(MapOf(updates))
    ensures forall x :: x in MapOf(updates) ==> x in updates
  {
    if updates != [] {
      MapOfIsDistinct(updates[..|updates| - 1]);
      PutKeepsDistinct(MapOf(updates[..|updates| - 1]), updates[|updates| - 1]);
    }
  }

  // ------------------------------------------------------------------- merging

  function Updated(row: Event, update: Option<Event>): Event {
    if update.Some? then Choose(row, update.value) else row
  }

  /** Each row takes its pending update; what is left over follows. */
  function MergeFrom(current: seq<Event>, pending: EventMap): seq<Event>
    decreases |current|
  {
    if current == [] then pending else
      [Updated(current[0], Lookup(pending, current[0].id))] + MergeFrom(current[1..], Delete(pending, current[0].id))
  }

  function Merge(current: seq<Event>, updates: seq<Event>): seq<Event> {
    MergeFrom(current, MapOf(updates))
  }

  /** `mergeThreadEvents`. */
  method MergeThreadEvents(current: seq<Event>, updates: seq<Event>) returns (merged: seq<Event>)
    ensures merged == Merge(current, updates)
  {
    var pending: EventMap := [];
    for i := 0 to |updates|
      invariant pending == MapOf(updates[..i])
    {
      assert updates[..i + 1][..i] == updates[..i];
      pending := Put(pending, updates[i]);
    }
    assert updates[..|updates|] == updates;
    var next: seq<Event> := [];
    for i := 0 to |current|
      invariant next + MergeFrom(current[i..], pending) == Merge(current, updates)
    {
      var update := Lookup(pending, current[i].id);
      next := next + [Updated(current[i], update)];
      pending := Delete(pending, current[i].id);
    }
    merged := next + pending;
  }

  lemma {:induction false} MergeNothing(rows: seq<Event>)
    ensures MergeFrom(rows, []) == rows
  {
    if rows != [] {
      MergeNothing(rows[1..]);
    }
  }

  lemma MergeSingle(current: seq<Event>, e: Event)
    ensures Merge(current, [e]) == MergeFrom(current, [e])
  {
    assert MapOf([e][..0]) == [];
  }

  lemma SingleMap(e: Event, id: string)
    requires id != e.id
    ensures Lookup([e], id) == None && Delete([e], id) == [e]
  {
    assert [e][1..] == [];
  }

  /** Merging one event updates the first row with its id ... */
  lemma {:induction false} MergeOneKnown(current: seq<Event>, e: Event, i: nat)
    requires i < |current| && current[i].id == e.id && forall j :: 0 <= j < i ==> current[j].id != e.id
    ensures MergeFrom(current, [e]) == current[i := Choose(current[i], e)]
  {
    if i == 0 {
      MergeNothing(current[1..]);
    } else {
      SingleMap(e, current[0].id);
      MergeOneKnown(current[1..], e, i - 1);
    }
  }

  /** ... or appends it. */
  lemma {:induction false} MergeOneNew(current: seq<Event>, e: Event)
    requires forall x :: x in current ==> x.id != e.id
    ensures MergeFrom(current, [e]) == current + [e]
  {
    if current != [] {
      SingleMap(e, current[0].id);
      MergeOneNew(current[1..], e);
    }
  }

  // ------------------------------------------------------------------ batching

  /** `enqueue` on the pending map. */
  function Enqueued(pending: EventMap, e: Event): EventMap {
    match Lookup(pending, e.id)
    case None => Put(pending, e)
    case Some(previous) => Put(pending, Choose(previous, e))
  }

  /** `createEventBatcher`. `deliveries` are the calls of `deliver`, `frame` the
      scheduled flush. */
  class EventBatcher {
    var pending: EventMap
    var frame: Option<nat>
    var scheduled: nat
    var deliveries: seq<seq<Event>>

    /** Nothing waits without a scheduled flush. */
    ghost predicate Valid()
      reads this
    {
      DistinctIds(pending) && (pending != [] ==> frame.Some?)
    }

    constructor ()
      ensures Valid() && pending == [] && deliveries == [] && frame == None
    {
      pending, frame, scheduled, deliveries := [], None, 0, [];
    }

    method Enqueue(e: Event)
      requires Valid()
      modifies `pending, `frame, `scheduled
      ensures Valid() && frame.Some? && (old(frame).Some? ==> frame == old(frame))
      ensures pending == Enqueued(old(pending), e)
    {
      var previous := Lookup(pending, e.id);
      var next := e;
      if previous.Some? {
        var merged := MergeThreadEvents([previous.value], [e]);
        MergeSingle([previous.value], e);
        MergeOneKnown([previous.value], e, 0);
        next := merged[0];
      }
      PutKeepsDistinct(pending, next);
      pending := Put(pending, next);
      if frame.None? {
        frame := Some(scheduled);
        scheduled := scheduled + 1;
      }
    }

    method Flush()
      requires Valid()
      modifies `pending, `frame, `deliveries
      ensures Valid() && pending == [] && frame == None
      ensures deliveries == old(deliveries) + if old(pending) == [] then [] else [old(pending)]
    {
      frame := None;
      var events := pending;
      pending := [];
      if events != [] {
        deliveries := deliveries + [events];
      }
    }

    method Dispose()
      modifies `pending, `frame
      ensures Valid() && pending == [] && frame == None
    {
      frame := None;
      pending := [];
    }
  }

  /** What reaches the transcript of one thread. */
  datatype Op = Live(event: Event) | Frame | History(events: seq<Event>) | Reset

  datatype View = View(rows: seq<Event>, pending: EventMap)

  function Flushed(v: View): View {
    View(Merge(v.rows, v.pending), [])
  }

  /** With the batcher: live events wait for a frame; a history snapshot flushes
      first and is then merged, and a reset flushes and empties the transcript. */
  function BatchedStep(v: View, op: Op): View {
    match op
    case Live(e) => v.(pending := Enqueued(v.pending, e))
    case Frame => Flushed(v)
    case History(events) => View(Merge(Flushed(v).rows, events), [])
    case Reset => Flushed(v).(rows := [])
  }

  function Batched(v: View, ops: seq<Op>): View {
    if ops == [] then v else BatchedStep(Batched(v, ops[..|ops| - 1]), ops[|ops| - 1])
  }

  /** Without: every live event is merged alone, at once. */
  function NaiveStep(rows: seq<Event>, op: Op): seq<Event> {
    match op
    case Live(e) => Merge(rows, [e])
    case Frame => rows
    case History(events) => Merge(rows, events)
    case Reset => []
  }

  function Naive(rows: seq<Event>, ops: seq<Op>): seq<Event> {
    if ops == [] then rows else NaiveStep(Naive(rows, ops[..|ops| - 1]), ops[|ops| - 1])
  }

  function EventsOf(op: Op): seq<Event> {
    match op
    case Live(e) => [e]
    case Frame => []
    case History(events) => events
    case Reset => []
  }

  /** Every event with an id in `flagged` carries a boolean flag, no other does. */
  ghost predicate Consistent(events: seq<Event>, flagged: set<string>) {
    forall e :: e in events ==> (e.flag != Unset <==> e.id in flagged)
  }

  ghost predicate ConsistentOps(ops: seq<Op>, flagged: set<string>) {
    forall op :: op in ops ==> Consistent(EventsOf(op), flagged)
  }

  lemma {:induction false} DistinctInit(m: EventMap)
    requires DistinctIds(m) && m != []
    ensures DistinctIds(m[..|m| - 1]) && forall x :: x in m[..|m| - 1] ==> x.id != m[|m| - 1].id
  {
    if |m| > 1 {
      DistinctInit(m[1..]);
      assert m[..|m| - 1][1..] == m[1..][..|m| - 2];
    }
  }

  lemma {:induction false} MapOfMap(m: EventMap)
    requires DistinctIds(m)
    ensures MapOf(m) == m
  {
    if m != [] {
      var init, last := m[..|m| - 1], m[|m| - 1];
      DistinctInit(m);
      MapOfMap(init);
      PutNew(init, last);
    }
  }

  lemma {:induction false} PutNew(m: EventMap, e: Event)
    requires forall x :: x in m ==> x.id != e.id
    ensures Put(m, e) == m + [e]
  {
    if m != [] {
      PutNew(m[1..], e);
    }
  }

  lemma {:induction false} MergeFromConsistent(current: seq<Event>, pending: EventMap, flagged: set<string>)
    requires Consistent(current, flagged) && Consistent(pending, flagged) && DistinctIds(pending)
    ensures Consistent(MergeFrom(current, pending), flagged)
    decreases |current|
  {
    if current != [] {
      DeleteRemoves(pending, current[0].id);
      MergeFromConsistent(current[1..], Delete(pending, current[0].id), flagged);
    }
  }

  /** The pending map after one more event, seen through a lookup ... */
  lemma {:induction false} LookupEnqueued(pending: EventMap, e: Event)
    ensures Lookup(Enqueued(pending, e), e.id)
         == Some(if Lookup(pending, e.id).Some? then Choose(Lookup(pending, e.id).value, e) else e)
    ensures Delete(Enqueued(pending, e), e.id) == Delete(pending, e.id)
  {
    if pending != [] && pending[0].id != e.id {
      LookupEnqueued(pending[1..], e);
    }
  }

  /** ... or a deletion of another id. */
  lemma {:induction false} OthersEnqueued(pending: EventMap, e: Event, id: string)
    requires DistinctIds(pending) && id != e.id
    ensures Lookup(Enqueued(pending, e), id) == Lookup(pending, id)
    ensures Delete(Enqueued(pending, e), id) == Enqueued(Delete(pending, id), e)
  {
    if pending != [] && pending[0].id != e.id {
      OthersEnqueued(pending[1..], e, id);
      LookupAfterDelete(pending, id, e.id);
    }
  }

  lemma {:induction false} LookupAfterDelete(m: EventMap, id: string, other: string)
    requires id != other
    ensures Lookup(Delete(m, id), other) == Lookup(m, other)
  {
    if m != [] {
      LookupAfterDelete(m[1..], id, other);
    }
  }

  /** The first row, when it is the one the event is about. */
  lemma EnqueueFirst(row: Event, update: Option<Event>, e: Event, flagged: set<string>)
    requires row.id == e.id && (update.Some? ==> update.value.id == e.id && Consistent([update.value], flagged))
    requires Consistent([row], flagged) && Consistent([e], flagged)
    ensures Updated(row, Some(if update.Some? then Choose(update.value, e) else e)) == Choose(Updated(row, update), e)
  {
    assert row in [row] && e in [e];
    if update.Some? {
      assert update.value in [update.value];
      ChooseAssociates(row, update.value, e);
    }
  }

  /** Enqueueing commutes with merging: putting the event in the batch is the
      same as merging it after the batch. */
  lemma {:induction false} EnqueueThenMerge(rows: seq<Event>, pending: EventMap, e: Event, flagged: set<string>)
    requires DistinctIds(pending)
    requires Consistent(rows, flagged) && Consistent(pending, flagged) && Consistent([e], flagged)
    ensures MergeFrom(rows, Enqueued(pending, e)) == MergeFrom(MergeFrom(rows, pending), [e])
    decreases |rows|
  {
    if rows == [] {
      EnqueueIntoRows(pending, e);
    } else {
      var row, update, rest := rows[0], Lookup(pending, rows[0].id), Delete(pending, rows[0].id);
      var merged := MergeFrom(rows, pending);
      assert merged[0] == Updated(row, update) && merged[0].id == row.id;
      assert merged[1..] == MergeFrom(rows[1..], rest);
      if row.id == e.id {
        LookupEnqueued(pending, e);
        MergeNothing(merged[1..]);
        EnqueueFirst(row, update, e, flagged);
      } else {
        OthersEnqueued(pending, e, row.id);
        SingleMap(e, row.id);
        DeleteRemoves(pending, row.id);
        EnqueueThenMerge(rows[1..], rest, e, flagged);
      }
    }
  }

  lemma {:induction false} EnqueueIntoRows(pending: EventMap, e: Event)
    requires DistinctIds(pending)
    ensures Enqueued(pending, e) == MergeFrom(pending, [e])
  {
    if pending != [] {
      if pending[0].id == e.id {
        MergeNothing(pending[1..]);
      } else {
        SingleMap(e, pending[0].id);
        EnqueueIntoRows(pending[1..], e);
      }
    }
  }

  /** The batcher and the naive transcript at the same point. */
  ghost predicate InStep(v: View, rows: seq<Event>, flagged: set<string>) {
    && DistinctIds(v.pending) && Consistent(v.rows, flagged) && Consistent(v.pending, flagged)
    && MergeFrom(v.rows, v.pending) == rows
  }

  lemma FlushedInStep(v: View, rows: seq<Event>, flagged: set<string>)
    requires InStep(v, rows, flagged)
    ensures Flushed(v).rows == rows && Consistent(rows, flagged)
  {
    MapOfMap(v.pending);
    MergeFromConsistent(v.rows, v.pending, flagged);
  }

  lemma StepKeepsInStep(v: View, rows: seq<Event>, op: Op, flagged: set<string>)
    requires InStep(v, rows, flagged) && Consistent(EventsOf(op), flagged)
    ensures InStep(BatchedStep(v, op), NaiveStep(rows, op), flagged)
  {
    FlushedInStep(v, rows, flagged);
    match op
    case Live(e) =>
      EnqueueThenMerge(v.rows, v.pending, e, flagged);
      EnqueuedConsistent(v.pending, e, flagged);
      MergeSingle(rows, e);
    case Frame =>
      MergeNothing(rows);
    case History(events) =>
      MapOfIsDistinct(events);
      MergeFromConsistent(rows, MapOf(events), flagged);
      MergeNothing(Merge(rows, events));
    case Reset =>
  }

  lemma {:induction false} BatchedIsNaive(rows: seq<Event>, ops: seq<Op>, flagged: set<string>)
    requires Consistent(rows, flagged) && ConsistentOps(ops, flagged)
    ensures InStep(Batched(View(rows, []), ops), Naive(rows, ops), flagged)
    decreases |ops|
  {
    if ops == [] {
      MergeNothing(rows);
    } else {
      var init, op := ops[..|ops| - 1], ops[|ops| - 1];
      assert op in ops && forall o :: o in init ==> o in ops;
      BatchedIsNaive(rows, init, flagged);
      StepKeepsInStep(Batched(View(rows, []), init), Naive(rows, init), op, flagged);
    }
  }

  lemma EnqueuedConsistent(pending: EventMap, e: Event, flagged: set<string>)
    requires DistinctIds(pending) && Consistent(pending, flagged) && Consistent([e], flagged)
    ensures DistinctIds(Enqueued(pending, e)) && Consistent(Enqueued(pending, e), flagged)
  {
    assert e in [e];
    PutKeepsDistinct(pending, e);
    if Lookup(pending, e.id).Some? {
      PutKeepsDistinct(pending, Choose(Lookup(pending, e.id).value, e));
    }
  }

  /** All events with one id agree on whether they carry a boolean flag. */
  ghost predicate Homogeneous(rows: seq<Event>, ops: seq<Op>) {
    forall d, e :: Occurs(d, rows, ops) && Occurs(e, rows, ops) && d.id == e.id ==> (d.flag == Unset <==> e.flag == Unset)
  }

  ghost predicate Occurs(e: Event, rows: seq<Event>, ops: seq<Op>) {
    e in rows || exists op :: op in ops && e in EventsOf(op)
  }

  function FlaggedIds(events: seq<Event>): set<string> {
    set e | e in events && e.flag != Unset :: e.id
  }

  function FlaggedInOps(ops: seq<Op>): set<string> {
    if ops == [] then {} else FlaggedIds(EventsOf(ops[0])) + FlaggedInOps(ops[1..])
  }

  lemma {:induction false} FlaggedInOpsMeaning(ops: seq<Op>, id: string)
    ensures id in FlaggedInOps(ops) <==> exists op, e :: op in ops && e in EventsOf(op) && e.flag != Unset && e.id == id
  {
    if ops != [] {
      FlaggedInOpsMeaning(ops[1..], id);
    }
  }

  lemma FlagsAreConsistent(rows: seq<Event>, ops: seq<Op>) returns (flagged: set<string>)
    requires Homogeneous(rows, ops)
    ensures Consistent(rows, flagged) && ConsistentOps(ops, flagged)
  {
    flagged := FlaggedIds(rows) + FlaggedInOps(ops);
    forall e | Occurs(e, rows, ops) ensures e.flag != Unset <==> e.id in flagged {
      FlaggedInOpsMeaning(ops, e.id);
      if e.id in FlaggedInOps(ops) {
        var op, d :| op in ops && d in EventsOf(op) && d.flag != Unset && d.id == e.id;
        assert Occurs(d, rows, ops);
      }
      if e.id in FlaggedIds(rows) {
        var d :| d in rows && d.flag != Unset && d.id == e.id;
        assert Occurs(d, rows, ops);
      }
      if e.flag != Unset && e !in rows {
        var op :| op in ops && e in EventsOf(op);
      }
    }
    forall op | op in ops ensures Consistent(EventsOf(op), flagged) {
      assert forall e :: e in EventsOf(op) ==> Occurs(e, rows, ops);
    }
    assert forall e :: e in rows ==> Occurs(e, rows, ops);
  }

  /** Batching is transparent: for any interleaving of live events, frames,
      history snapshots and resets, the transcript after a last flush is the one that merges
      every live event alone: the same rows in the same order. */
  lemma BatchingIsTransparent(rows: seq<Event>, ops: seq<Op>)
    requires Homogeneous(rows, ops)
    ensures Flushed(Batched(View(rows, []), ops)).rows == Naive(rows, ops)
  {
    var flagged := FlagsAreConsistent(rows, ops);
    BatchedIsNaive(rows, ops, flagged);
    FlushedInStep(Batched(View(rows, []), ops), Naive(rows, ops), flagged);
  }

  // ------------------------------------------------- where batching can be seen

  /** Snapshots of one row merged into each other, oldest first. */
  function Fold(es: seq<Event>): Event
    requires es != []
  {
    if |es| == 1 then es[0] else Choose(Fold(es[..|es| - 1]), es[|es| - 1])
  }

  function FoldInto(row: Event, es: seq<Event>): Event {
    if es == [] then row else Choose(FoldInto(row, es[..|es| - 1]), es[|es| - 1])
  }

  /** The events from the last one without a flag on; none if all carry it. */
  function SinceUnset(es: seq<Event>): seq<Event> {
    if es == [] then [] else
      var before, last := SinceUnset(es[..|es| - 1]), es[|es| - 1];
      if last.flag == Unset then [last] else if before == [] then [] else before + [last]
  }

  /** The row on screen outlasts what the batch has come to since its last event
      without a flag. */
  predicate RowDiffers(row: Event, es: seq<Event>) {
    SinceUnset(es) != [] && Keeps(row, Fold(SinceUnset(es)))
  }

  /** An event without a flag always replaces the row, so what was before it no
      longer counts. */
  lemma {:induction false} UnsetForgets(row: Event, es: seq<Event>)
    requires SinceUnset(es) != []
    ensures es != [] && FoldInto(row, es) == Fold(es) == Fold(SinceUnset(es))
  {
    var init, last := es[..|es| - 1], es[|es| - 1];
    if last.flag != Unset {
      UnsetForgets(row, init);
      assert (SinceUnset(init) + [last])[..|SinceUnset(init)|] == SinceUnset(init);
    } else if init != [] {
      assert !Keeps(Fold(init), last);
    }
  }

  lemma {:induction false} FlaggedFold(row: Event, es: seq<Event>)
    requires es != [] && SinceUnset(es) == []
    ensures Fold(es).flag != Unset && FoldInto(row, es) == Choose(row, Fold(es))
  {
    var init, last := es[..|es| - 1], es[|es| - 1];
    if init != [] {
      FlaggedFold(row, init);
      ChooseAssociates(row, Fold(init), last);
    }
  }

  /** One row, any list of its events: merging them into each other first differs
      from merging them into the row one by one exactly there. */
  lemma RowsDiffer(row: Event, es: seq<Event>)
    requires es != []
    ensures FoldInto(row, es) != Choose(row, Fold(es)) <==> RowDiffers(row, es)
  {
    if SinceUnset(es) == [] {
      FlaggedFold(row, es);
    } else {
      UnsetForgets(row, es);
    }
  }

  /** The events of a list with this id, and the others. */
  function Own(es: seq<Event>, id: string): seq<Event> {
    if es == [] then [] else
      var before, last := Own(es[..|es| - 1], id), es[|es| - 1];
      if last.id == id then before + [last] else before
  }

  function Others(es: seq<Event>, id: string): seq<Event> {
    if es == [] then [] else
      var before, last := Others(es[..|es| - 1], id), es[|es| - 1];
      if last.id == id then before else before + [last]
  }

  lemma Snocs(es: seq<Event>, e: Event, id: string)
    ensures Own(es + [e], id) == if e.id == id then Own(es, id) + [e] else Own(es, id)
    ensures Others(es + [e], id) == if e.id == id then Others(es, id) else Others(es, id) + [e]
  {
    assert (es + [e])[..|es|] == es;
  }

  lemma FoldSnocs(row: Event, es: seq<Event>, e: Event)
    ensures FoldInto(row, es + [e]) == Choose(FoldInto(row, es), e)
    ensures Fold(es + [e]) == if es == [] then e else Choose(Fold(es), e)
  {
    assert (es + [e])[..|es|] == es;
  }

  lemma {:induction false} OwnOfOthers(es: seq<Event>, id: string, other: string)
    ensures Own(Others(es, id), other) == if id == other then [] else Own(es, other)
  {
    if es != [] {
      OwnOfOthers(es[..|es| - 1], id, other);
      Snocs(Others(es[..|es| - 1], id), es[|es| - 1], other);
    }
  }

  /** A batch of these events, and these events merged one by one. */
  function Batch(es: seq<Event>): EventMap {
    if es == [] then [] else Enqueued(Batch(es[..|es| - 1]), es[|es| - 1])
  }

  function OneByOne(rows: seq<Event>, es: seq<Event>): seq<Event> {
    if es == [] then rows else MergeFrom(OneByOne(rows, es[..|es| - 1]), [es[|es| - 1]])
  }

  lemma {:induction false} BatchIsDistinct(es: seq<Event>)
    ensures DistinctIds(Batch(es))
  {
    if es != [] {
      BatchIsDistinct(es[..|es| - 1]);
      EnqueuedDistinct(Batch(es[..|es| - 1]), es[|es| - 1]);
    }
  }

  lemma EnqueuedDistinct(pending: EventMap, e: Event)
    requires DistinctIds(pending)
    ensures DistinctIds(Enqueued(pending, e))
  {
    PutKeepsDistinct(pending, e);
    if Lookup(pending, e.id).Some? {
      PutKeepsDistinct(pending, Choose(Lookup(pending, e.id).value, e));
    }
  }

  /** The batch holds for each id the fold of its events. */
  lemma {:induction false} BatchById(es: seq<Event>, id: string)
    ensures Lookup(Batch(es), id) == if Own(es, id) == [] then None else Some(Fold(Own(es, id)))
    ensures Delete(Batch(es), id) == Batch(Others(es, id))
  {
    if es != [] {
      var init, last := es[..|es| - 1], es[|es| - 1];
      BatchById(init, id);
      BatchIsDistinct(init);
      if last.id == id {
        LookupEnqueued(Batch(init), last);
        FoldSnocs(last, Own(init, id), last);
      } else {
        OthersEnqueued(Batch(init), last, id);
        BatchSnoc(Others(init, id), last);
      }
    }
  }

  lemma BatchSnoc(es: seq<Event>, e: Event)
    ensures Batch(es + [e]) == Enqueued(Batch(es), e)
  {
    assert (es + [e])[..|es|] == es;
  }

  lemma OneByOneSnoc(rows: seq<Event>, es: seq<Event>, e: Event)
    ensures OneByOne(rows, es + [e]) == MergeFrom(OneByOne(rows, es), [e])
  {
    assert (es + [e])[..|es|] == es;
  }

  /** One by one, the first row takes its own events and leaves the others. */
  lemma {:induction false} OneByOneFirst(row: Event, rest: seq<Event>, es: seq<Event>)
    ensures FoldInto(row, Own(es, row.id)).id == row.id
    ensures OneByOne([row] + rest, es) == [FoldInto(row, Own(es, row.id))] + OneByOne(rest, Others(es, row.id))
    decreases |es|
  {
    if es != [] {
      var init, last := es[..|es| - 1], es[|es| - 1];
      var own, others := Own(init, row.id), Others(init, row.id);
      OneByOneFirst(row, rest, init);
      MergeFirst(FoldInto(row, own), OneByOne(rest, others), last);
      if last.id == row.id {
        FoldSnocs(row, own, last);
      } else {
        OneByOneSnoc(rest, others, last);
      }
    }
  }

  lemma MergeFirst(first: Event, rest: seq<Event>, e: Event)
    ensures MergeFrom([first] + rest, [e]) ==
            if e.id == first.id then [Choose(first, e)] + rest else [first] + MergeFrom(rest, [e])
  {
    assert ([first] + rest)[1..] == rest;
    if e.id == first.id {
      MergeNothing(rest);
    } else {
      SingleMap(e, first.id);
    }
  }

  lemma {:induction false} OneByOneAlone(es: seq<Event>)
    ensures OneByOne([], es) == Batch(es)
  {
    if es != [] {
      OneByOneAlone(es[..|es| - 1]);
      BatchIsDistinct(es[..|es| - 1]);
      EnqueueIntoRows(Batch(es[..|es| - 1]), es[|es| - 1]);
    }
  }

  /** Row `i` is the first with its id. */
  predicate FirstWithItsId(rows: seq<Event>, i: nat) {
    i < |rows| && forall j :: 0 <= j < i ==> rows[j].id != rows[i].id
  }

  ghost predicate SomeRowDiffers(rows: seq<Event>, es: seq<Event>) {
    exists i: nat :: FirstWithItsId(rows, i) && RowDiffers(rows[i], Own(es, rows[i].id))
  }

  lemma SomeRowDiffersSplit(rows: seq<Event>, es: seq<Event>)
    requires rows != []
    ensures SomeRowDiffers(rows, es) <==>
            RowDiffers(rows[0], Own(es, rows[0].id)) || SomeRowDiffers(rows[1..], Others(es, rows[0].id))
  {
    var rest, others := rows[1..], Others(es, rows[0].id);
    if RowDiffers(rows[0], Own(es, rows[0].id)) {
      assert FirstWithItsId(rows, 0);
    }
    if SomeRowDiffers(rest, others) {
      var i: nat :| FirstWithItsId(rest, i) && RowDiffers(rest[i], Own(others, rest[i].id));
      OwnOfOthers(es, rows[0].id, rest[i].id);
      assert forall j :: 0 <= j < i ==> rows[j + 1] == rest[j];
      assert FirstWithItsId(rows, i + 1);
    }
    if SomeRowDiffers(rows, es) && !RowDiffers(rows[0], Own(es, rows[0].id)) {
      var i: nat :| FirstWithItsId(rows, i) && RowDiffers(rows[i], Own(es, rows[i].id));
      assert rest[i - 1] == rows[i] && rows[i].id != rows[0].id;
      OwnOfOthers(es, rows[0].id, rows[i].id);
      assert forall j :: 0 <= j < i - 1 ==> rows[j + 1] == rest[j];
      assert FirstWithItsId(rest, i - 1);
    }
  }

  lemma {:induction false} BatchShows(rows: seq<Event>, es: seq<Event>)
    ensures MergeFrom(rows, Batch(es)) != OneByOne(rows, es) <==> SomeRowDiffers(rows, es)
    decreases |rows|
  {
    if rows == [] {
      OneByOneAlone(es);
    } else {
      var row, own, others := rows[0], Own(es, rows[0].id), Others(es, rows[0].id);
      BatchById(es, row.id);
      OneByOneFirst(row, rows[1..], es);
      assert [row] + rows[1..] == rows;
      BatchShows(rows[1..], others);
      SomeRowDiffersSplit(rows, es);
      if own != [] {
        RowsDiffer(row, own);
      }
      var batched, naive := MergeFrom(rows, Batch(es)), OneByOne(rows, es);
      assert batched[1..] == MergeFrom(rows[1..], Batch(others)) && naive[1..] == OneByOne(rows[1..], others);
      assert batched[0] == (if own == [] then row else Choose(row, Fold(own))) && naive[0] == FoldInto(row, own);
    }
  }

  function Lives(es: seq<Event>): seq<Op> {
    seq(|es|, i requires 0 <= i < |es| => Live(es[i]))
  }

  lemma {:induction false} LivesAreBatch(rows: seq<Event>, es: seq<Event>)
    ensures Batched(View(rows, []), Lives(es)) == View(rows, Batch(es))
    ensures Naive(rows, Lives(es)) == OneByOne(rows, es)
    decreases |es|
  {
    if es != [] {
      var init, last := es[..|es| - 1], es[|es| - 1];
      LivesAreBatch(rows, init);
      assert Lives(es)[..|es| - 1] == Lives(init) && Lives(es)[|es| - 1] == Live(last);
      MergeSingle(OneByOne(rows, init), last);
    }
  }

  /** Any transcript, any list of live events of a frame: batching can be seen if
      and only if some row outlasts what its own events have come to since the
      last of them without a flag. */
  lemma BatchingShowsExactly(rows: seq<Event>, es: seq<Event>)
    ensures Flushed(Batched(View(rows, []), Lives(es))).rows != Naive(rows, Lives(es)) <==> SomeRowDiffers(rows, es)
  {
    LivesAreBatch(rows, es);
    BatchIsDistinct(es);
    MapOfMap(Batch(es));
    BatchShows(rows, es);
  }

  /** It happens: a completed row, then an update without the flag and a
      streaming one in the same frame. */
  lemma MixedFlagsShow()
    ensures exists rows, ops :: Flushed(Batched(View(rows, []), ops)).rows != Naive(rows, ops)
  {
    var done, plain, live := Event("e", Completed, None, ""), Event("e", Unset, None, ""), Event("e", Streaming, None, "");
    var rows, es := [done], [plain, live];
    assert es[..1] == [plain] && [plain][..0] == [] && [] + [plain] + [live] == es;
    Snocs([], plain, "e");
    Snocs([plain], live, "e");
    assert SinceUnset([plain]) == [plain];
    assert SinceUnset(es) == es && Fold(es) == live;
    assert FirstWithItsId(rows, 0) && RowDiffers(rows[0], Own(es, rows[0].id));
    BatchingShowsExactly(rows, es);
  }

  // ----------------------------------------------------------------- no rewind

  /** `later` does not go back behind `earlier`. */
  predicate NotRewound(earlier: Event, later: Event) {
    && later.id == earlier.id
    && (earlier.flag == Completed ==> later.flag == Completed)
    && (earlier.flag == Streaming && later.flag == Streaming ==> TextLength(earlier) <= TextLength(later))
  }

  /** Every row stays where it is, and rows with a flag do not go back. */
  ghost predicate OnlyForward(before: seq<Event>, after: seq<Event>, flagged: set<string>) {
    && |before| <= |after|
    && forall i :: 0 <= i < |before| ==>
         after[i].id == before[i].id && (before[i].id in flagged ==> NotRewound(before[i], after[i]))
  }

  lemma {:induction false} MergeOnlyForward(rows: seq<Event>, pending: EventMap, flagged: set<string>)
    requires Consistent(rows, flagged) && Consistent(pending, flagged) && DistinctIds(pending)
    ensures OnlyForward(rows, MergeFrom(rows, pending), flagged)
    decreases |rows|
  {
    if rows != [] {
      DeleteRemoves(pending, rows[0].id);
      MergeOnlyForward(rows[1..], Delete(pending, rows[0].id), flagged);
      var merged := MergeFrom(rows, pending);
      assert merged[1..] == MergeFrom(rows[1..], Delete(pending, rows[0].id));
      forall i | 0 <= i < |rows|
        ensures merged[i].id == rows[i].id && (rows[i].id in flagged ==> NotRewound(rows[i], merged[i]))
      {
        if i > 0 {
          assert merged[i] == merged[1..][i - 1] && rows[i] == rows[1..][i - 1];
        }
      }
    }
  }

  /** No rewind: over any run of live events, frames, history snapshots and resets
      no row moves or disappears, a completed row never streams again, and streamed
      text never gets shorter, whichever two moments are compared that have no
      reset between them. */
  lemma {:induction false} NoRewind(rows: seq<Event>, ops: seq<Op>, more: seq<Op>, flagged: set<string>)
    requires Consistent(rows, flagged) && ConsistentOps(ops + more, flagged) && Reset !in more
    ensures OnlyForward(Batched(View(rows, []), ops).rows, Batched(View(rows, []), ops + more).rows, flagged)
    decreases |more|
  {
    var start := View(rows, []);
    if more == [] {
      assert ops + more == ops;
      return;
    }
    var init, op := more[..|more| - 1], more[|more| - 1];
    assert (ops + more)[..|ops + more| - 1] == ops + init && (ops + more)[|ops + more| - 1] == op;
    assert op in ops + more && forall o :: o in ops + init ==> o in ops + more;
    NoRewind(rows, ops, init, flagged);
    BatchedIsNaive(rows, ops + init, flagged);
    StepOnlyForward(Batched(start, ops + init), Naive(rows, ops + init), op, flagged);
    var a, b, c := Batched(start, ops).rows, Batched(start, ops + init).rows, Batched(start, ops + more).rows;
    assert forall o :: o in ops ==> o in ops + more;
    BatchedRowsConsistent(rows, ops, flagged);
    ForwardTwice(a, b, c, flagged);
  }

  lemma BatchedRowsConsistent(rows: seq<Event>, ops: seq<Op>, flagged: set<string>)
    requires Consistent(rows, flagged) && ConsistentOps(ops, flagged)
    ensures Consistent(Batched(View(rows, []), ops).rows, flagged)
  {
    BatchedIsNaive(rows, ops, flagged);
  }

  lemma StepOnlyForward(v: View, naive: seq<Event>, op: Op, flagged: set<string>)
    requires InStep(v, naive, flagged) && Consistent(EventsOf(op), flagged) && op != Reset
    ensures OnlyForward(v.rows, BatchedStep(v, op).rows, flagged)
  {
    MapOfMap(v.pending);
    MergeOnlyForward(v.rows, v.pending, flagged);
    FlushedInStep(v, naive, flagged);
    match op
    case Live(e) =>
    case Frame =>
    case History(events) =>
      MapOfIsDistinct(events);
      MergeOnlyForward(naive, MapOf(events), flagged);
      ForwardTwice(v.rows, naive, Merge(naive, events), flagged);
  }

  lemma ForwardTwice(a: seq<Event>, b: seq<Event>, c: seq<Event>, flagged: set<string>)
    requires OnlyForward(a, b, flagged) && OnlyForward(b, c, flagged)
    requires Consistent(a, flagged) && Consistent(b, flagged)
    ensures OnlyForward(a, c, flagged)
  {
    forall i | 0 <= i < |a| ensures c[i].id == a[i].id && (a[i].id in flagged ==> NotRewound(a[i], c[i])) {
      assert b[i].id == a[i].id && b[i] in b;
    }
  }
}
