/** The order of a conversation: `buildTranscriptItems` and its helpers
    (webview/src/transcript.ts). */
module Transcript {
  import opened Wrappers
  import opened Sorting

  // ------------------------------------------------------------------ data model

  type Agent = string

  /** An activity's kind, with the agents of its payload that are read for it.
      `Notice` is any other kind that is shown, `Routine` any that is not. */
  datatype ActivityKind =
    | AgentLimited(agent: Option<Agent>)
    | FallbackStarted(source: Option<Agent>)
    | FallbackWaiting(agent: Option<Agent>)
    | FallbackDisabled(agent: Option<Agent>)
    | SwitchbackStarted(target: Option<Agent>)
    | SwitchbackCompleted(agent: Option<Agent>)
    | Notice(name: string)
    | Routine(name: string)

  datatype Activity = Activity(id: string, ts: nat, kind: ActivityKind, reason: Option<string>)

  datatype Role = User | Assistant | Tool | System | NoRole

  /** `endStatus`: the session's status is completed, interrupted or failed. */
  datatype EventKind = SessionStarted | TokenUsage | UsageLimit | SessionEnded(endStatus: bool) | OtherKind(name: string)

  datatype ThreadEvent = ThreadEvent(id: string, ts: nat, role: Role, kind: EventKind, text: string,
                                     clientId: Option<string>)

  datatype QueuedTurn = QueuedTurn(id: string, message: string, echo: bool)

  datatype CloudRun = CloudRun(id: string, ts: nat, active: bool)

  datatype PendingMessage = PendingMessage(id: string, text: string, firstTurn: bool)

  /** Ids of notices; the prefixes that keep the three apart are constructors. */
  datatype NoticeId = OfActivity(id: string) | OfLimit(threadId: string) | OfCloudRun(runId: string)

  datatype Item =
    | EventItem(event: ThreadEvent)
    | NoticeItem(id: NoticeId)
    | QueuedItem(turnId: string, message: string)
    | PendingItem(pending: PendingMessage)

  datatype Input = Input(thread: Option<string>, events: seq<ThreadEvent>, activities: seq<Activity>,
                         queued: seq<QueuedTurn>, cloudRuns: seq<CloudRun>, pending: seq<PendingMessage>)

  // ------------------------------------------------------------------ superseding

  function Order(activities: seq<Activity>): seq<Activity> {
    Sort(activities, ActivityTime)
  }

  function ActivityTime(a: Activity): int {
    a.ts
  }

  /** The agent an opening activity is about. */
  function OpenerAgent(a: Activity): Option<Agent> {
    match a.kind
    case AgentLimited(agent) => agent
    case SwitchbackStarted(target) => target
    case _ => None
  }

  predicate SameKind(a: Activity, b: Activity) {
    (a.kind.AgentLimited? && b.kind.AgentLimited?) || (a.kind.SwitchbackStarted? && b.kind.SwitchbackStarted?)
  }

  /** A repeat of an opener starts a new episode. */
  predicate Repeats(opener: Activity, later: Activity) {
    SameKind(opener, later) && OpenerAgent(later) == OpenerAgent(opener)
  }

  predicate Resolves(opener: Activity, later: Activity) {
    var agent := OpenerAgent(opener);
    if opener.kind.AgentLimited? then
      match later.kind
      case FallbackStarted(source) => source == agent
      case FallbackWaiting(other) => other == agent
      case FallbackDisabled(other) => other == agent
      case _ => false
    else if opener.kind.SwitchbackStarted? then
      later.kind.SwitchbackCompleted? && later.kind.agent == agent
    else false
  }

  /** Opener `i` is resolved by outcome `j` of the same episode. */
  predicate ResolvedAt(ordered: seq<Activity>, i: nat, j: nat)
    requires i < |ordered|
  {
    && i < j < |ordered| && OpenerAgent(ordered[i]).Some? && Resolves(ordered[i], ordered[j])
    && forall k :: i < k < j ==> !Repeats(ordered[i], ordered[k])
  }

  predicate Hidden(ordered: seq<Activity>, i: nat)
    requires i < |ordered|
  {
    exists j :: 0 <= j < |ordered| && ResolvedAt(ordered, i, j)
  }

  function Superseded(activities: seq<Activity>): set<string> {
    var ordered := Order(activities);
    set i | 0 <= i < |ordered| && Hidden(ordered, i) :: ordered[i].id
  }

  /** `supersededActivities`. */
  method SupersededActivities(activities: seq<Activity>) returns (superseded: set<string>)
    ensures superseded == Superseded(activities)
  {
    var ordered := Order(activities);
    superseded := {};
    for index := 0 to |ordered|
      invariant superseded == set i | 0 <= i < index && Hidden(ordered, i) :: ordered[i].id
    {
      var found := false;
      if OpenerAgent(ordered[index]).Some? {
        found := Search(ordered, index);
      }
      if found {
        superseded := superseded + {ordered[index].id};
      }
    }
  }

  /** The inner loop: up to the first repeat, or the first outcome. */
  method Search(ordered: seq<Activity>, index: nat) returns (found: bool)
    requires index < |ordered| && OpenerAgent(ordered[index]).Some?
    ensures found == Hidden(ordered, index)
  {
    var j := index + 1;
    while j < |ordered|
      invariant index < j <= |ordered|
      invariant forall k :: index < k < j ==> !Repeats(ordered[index], ordered[k]) && !Resolves(ordered[index], ordered[k])
    {
      if Repeats(ordered[index], ordered[j]) {
        return false;
      }
      if Resolves(ordered[index], ordered[j]) {
        assert ResolvedAt(ordered, index, j);
        return true;
      }
      j := j + 1;
    }
    return false;
  }

  /** `transitionFromActivity` makes something of it. */
  predicate Shown(a: Activity) {
    !a.kind.Routine?
  }

  predicate IsLimit(a: Activity) {
    a.kind.AgentLimited? || a.kind.FallbackStarted? || a.kind.FallbackWaiting? || a.kind.FallbackDisabled?
  }

  function ActivityId(a: Activity): string {
    a.id
  }

  ghost predicate DistinctActivities(activities: seq<Activity>) {
    Distinct(activities, ActivityId)
  }

  // ------------------------------------------------------------------ the items

  predicate IsRoutine(e: ThreadEvent) {
    || e.role == System
    || e.kind.SessionStarted? || e.kind.TokenUsage? || e.kind.UsageLimit?
    || (e.kind.SessionEnded? && e.kind.endStatus)
  }

  predicate IsMessage(e: ThreadEvent) {
    e.role == User && !IsRoutine(e)
  }

  function IdsOf(pending: seq<PendingMessage>): set<string> {
    set p | p in pending :: p.id
  }

  /** A persisted message whose bubble is still on screen. */
  predicate IsTwin(e: ThreadEvent, ids: set<string>) {
    IsMessage(e) && e.clientId.Some? && e.clientId.value in ids
  }

  /** What an event shows, given the messages since the last answer; `shown` is the
      text a message is shown with. */
  function ItemsOf(e: ThreadEvent, ids: set<string>, seen: set<string>, shown: string -> string): seq<Item> {
    if IsRoutine(e) || IsTwin(e, ids) then []
    else if e.role == User then
      var text := shown(e.text);
      if text != "" && text in seen then [] else [EventItem(e.(text := text))]
    else [EventItem(e)]
  }

  function SeenAfter(e: ThreadEvent, ids: set<string>, seen: set<string>, shown: string -> string): set<string> {
    if IsRoutine(e) || IsTwin(e, ids) then seen
    else if e.role == User then (if shown(e.text) != "" then seen + {shown(e.text)} else seen)
    else if e.role == Assistant || e.role == Tool then {}
    else seen
  }

  function EventItems(events: seq<ThreadEvent>, ids: set<string>, seen: set<string>, shown: string -> string): seq<Item>
    decreases |events|
  {
    if events == [] then []
    else
      ItemsOf(events[0], ids, seen, shown)
      + EventItems(events[1..], ids, SeenAfter(events[0], ids, seen, shown), shown)
  }

  function ActivityItems(activities: seq<Activity>, hidden: set<string>): seq<Item> {
    if activities == [] then []
    else
      (if activities[0].id !in hidden && Shown(activities[0]) then [NoticeItem(OfActivity(activities[0].id))] else [])
      + ActivityItems(activities[1..], hidden)
  }

  /** The notice of a usage limit that no activity speaks of. */
  function LimitItems(input: Input, hidden: set<string>): seq<Item> {
    if && input.thread.Some?
       && (exists e :: e in input.events && IsRoutine(e) && e.kind.UsageLimit?)
       && !(exists a :: a in input.activities && (a.id in hidden || (Shown(a) && IsLimit(a))))
    then [NoticeItem(OfLimit(input.thread.value))]
    else []
  }

  function CloudItems(runs: seq<CloudRun>): seq<Item> {
    if runs == [] then []
    else (if runs[0].active then [NoticeItem(OfCloudRun(runs[0].id))] else []) + CloudItems(runs[1..])
  }

  function QueuedItems(queued: seq<QueuedTurn>): seq<Item> {
    if queued == [] then []
    else (if queued[0].echo then [QueuedItem(queued[0].id, queued[0].message)] else []) + QueuedItems(queued[1..])
  }

  function PendingItems(pending: seq<PendingMessage>): seq<Item> {
    if pending == [] then [] else [PendingItem(pending[0])] + PendingItems(pending[1..])
  }

  function OtherItems(input: Input): seq<Item> {
    var hidden := Superseded(input.activities);
    ActivityItems(input.activities, hidden) + LimitItems(input, hidden) + CloudItems(input.cloudRuns) + QueuedItems(input.queued)
  }

  function Items(input: Input, shown: string -> string): seq<Item> {
    EventItems(input.events, IdsOf(input.pending), {}, shown) + OtherItems(input) + PendingItems(input.pending)
  }

  // ------------------------------------------------------------------- sort keys
  // Keys are doubled, so that the half millisecond of an anchor is a whole number.

  const QUEUED_RANK := 2 * 1_000_000_000_000_000
  const PENDING_RANK := 2 * 2_000_000_000_000_000
  const TRAILING_RANK := 2 * 3_000_000_000_000_000
  const LAST_RANK := 2 * 9_007_199_254_740_991

  /** The time of the last twin of a bubble. */
  function TwinTime(events: seq<ThreadEvent>, id: string): Option<nat> {
    if events == [] then None
    else
      var e := events[|events| - 1];
      if IsMessage(e) && e.clientId == Some(id) then Some(e.ts) else TwinTime(events[..|events| - 1], id)
  }

  predicate IsSendTime(a: Activity) {
    && IsLimit(a)
    && a.reason.Some?
    && a.reason.value in {"preflight", "known_limited", "no_ready_fallback", "auto_switch_disabled"}
  }

  /** The time of the first message at or after `ts`. */
  function Trigger(events: seq<ThreadEvent>, ts: nat): Option<nat> {
    if events == [] then None
    else
      var rest := Trigger(events[1..], ts);
      if !IsMessage(events[0]) || events[0].ts < ts || (rest.Some? && rest.value <= events[0].ts) then rest
      else Some(events[0].ts)
  }

  function AnchorKey(events: seq<ThreadEvent>, ts: nat): int {
    var trigger := Trigger(events, ts);
    if trigger.Some? then 2 * trigger.value + 1 else TRAILING_RANK
  }

  /** The anchor of the last send-time activity with this id. */
  function Anchor(activities: seq<Activity>, events: seq<ThreadEvent>, id: string): Option<int> {
    if activities == [] then None
    else
      var a := activities[|activities| - 1];
      if IsSendTime(a) && a.id == id then Some(AnchorKey(events, a.ts))
      else Anchor(activities[..|activities| - 1], events, id)
  }

  function FirstTime(activities: seq<Activity>, id: string): Option<nat> {
    if activities == [] then None
    else if activities[0].id == id then Some(activities[0].ts)
    else FirstTime(activities[1..], id)
  }

  function RunTime(runs: seq<CloudRun>, id: string): Option<nat> {
    if runs == [] then None else if runs[0].id == id then Some(runs[0].ts) else RunTime(runs[1..], id)
  }

  function Rank(time: Option<nat>, otherwise: int): int {
    if time.Some? then 2 * time.value else otherwise
  }

  /** `itemTs`. */
  function Key(input: Input, item: Item): int {
    match item
    case EventItem(e) => 2 * e.ts
    case QueuedItem(_, _) => QUEUED_RANK
    case PendingItem(p) => Rank(TwinTime(input.events, p.id), PENDING_RANK)
    case NoticeItem(OfActivity(id)) =>
      var anchor := Anchor(input.activities, input.events, id);
      if anchor.Some? then anchor.value else Rank(FirstTime(input.activities, id), LAST_RANK)
    case NoticeItem(OfCloudRun(id)) => Rank(RunTime(input.cloudRuns, id), LAST_RANK)
    case NoticeItem(OfLimit(_)) => LAST_RANK
  }

  function Ordered(input: Input, shown: string -> string): seq<Item> {
    Sort(Items(input, shown), ByKey(input))
  }

  function ByKey(input: Input): Item -> int {
    (item: Item) => Key(input, item)
  }

  // -------------------------------------------------------------- the anchors

  function AsInt(t: nat): int {
    t
  }

  function MessageTimes(events: seq<ThreadEvent>): seq<nat> {
    if events == [] then []
    else (if IsMessage(events[0]) then [events[0].ts] else []) + MessageTimes(events[1..])
  }

  /** The trigger is a message's time, not before `ts`, and the least such. */
  lemma {:induction false} TriggerIsFirst(events: seq<ThreadEvent>, ts: nat)
    ensures var trigger := Trigger(events, ts);
            && (trigger.Some? ==> trigger.value >= ts && trigger.value in MessageTimes(events))
            && forall t :: t in MessageTimes(events) && t >= ts ==> trigger.Some? && trigger.value <= t
  {
    if events != [] {
      TriggerIsFirst(events[1..], ts);
    }
  }

  /** `userTimes.find`. */
  method FindTrigger(events: seq<ThreadEvent>, userTimes: seq<nat>, ts: nat) returns (trigger: Option<nat>)
    requires userTimes == Sort(MessageTimes(events), AsInt)
    ensures trigger == Trigger(events, ts)
  {
    TimesAreSorted(events, userTimes);
    trigger := None;
    var i := 0;
    while i < |userTimes|
      invariant i <= |userTimes|
      invariant trigger.None?
      invariant forall k :: 0 <= k < i ==> userTimes[k] < ts
    {
      if userTimes[i] >= ts {
        trigger := Some(userTimes[i]);
        break;
      }
      i := i + 1;
    }
    FoundIsTrigger(events, userTimes, ts, trigger, i);
  }

  lemma TimesAreSorted(events: seq<ThreadEvent>, userTimes: seq<nat>)
    requires userTimes == Sort(MessageTimes(events), AsInt)
    ensures forall i, j :: 0 <= i < j < |userTimes| ==> userTimes[i] <= userTimes[j]
    ensures forall t :: t in userTimes <==> t in MessageTimes(events)
  {
    SortSorts(MessageTimes(events), AsInt);
    assert forall i, j :: 0 <= i < j < |userTimes| ==> AsInt(userTimes[i]) <= AsInt(userTimes[j]);
    forall t ensures t in userTimes <==> t in MessageTimes(events) {
      SortMembers(MessageTimes(events), AsInt, t);
    }
  }

  lemma FoundIsTrigger(events: seq<ThreadEvent>, userTimes: seq<nat>, ts: nat, found: Option<nat>, i: nat)
    requires forall i, j :: 0 <= i < j < |userTimes| ==> userTimes[i] <= userTimes[j]
    requires forall t :: t in userTimes <==> t in MessageTimes(events)
    requires i <= |userTimes| && forall k :: 0 <= k < i ==> userTimes[k] < ts
    requires if i < |userTimes| then found == Some(userTimes[i]) && userTimes[i] >= ts else found.None?
    ensures found == Trigger(events, ts)
  {
    TriggerIsFirst(events, ts);
    var trigger := Trigger(events, ts);
    if trigger.Some? {
      var k :| 0 <= k < |userTimes| && userTimes[k] == trigger.value;
      assert k >= i;
    }
    if found.Some? {
      assert found.value in userTimes;
    }
  }

  /** `sendTimeAnchors`. */
  method SendTimeAnchors(activities: seq<Activity>, events: seq<ThreadEvent>) returns (anchors: map<string, int>)
    ensures forall id :: (id in anchors <==> Anchor(activities, events, id).Some?)
                         && (id in anchors ==> anchors[id] == Anchor(activities, events, id).value)
  {
    var userTimes := Sort(MessageTimes(events), AsInt);
    anchors := map[];
    for i := 0 to |activities|
      invariant forall id :: (id in anchors <==> Anchor(activities[..i], events, id).Some?)
                             && (id in anchors ==> anchors[id] == Anchor(activities[..i], events, id).value)
    {
      var a := activities[i];
      assert activities[..i + 1][..i] == activities[..i];
      if !IsSendTime(a) { continue; }
      var trigger := FindTrigger(events, userTimes, a.ts);
      anchors := anchors[a.id := if trigger.Some? then 2 * trigger.value + 1 else TRAILING_RANK];
    }
    assert activities[..|activities|] == activities;
  }

  // --------------------------------------------------------------- the builder

  /** `itemTs` over the two kinds of sort keys. */
  function KeyFrom(input: Input, twins: map<string, nat>, anchors: map<string, int>, item: Item): int {
    match item
    case EventItem(e) => 2 * e.ts
    case QueuedItem(_, _) => QUEUED_RANK
    case PendingItem(p) => if p.id in twins then 2 * twins[p.id] else PENDING_RANK
    case NoticeItem(OfActivity(id)) =>
      if id in anchors then anchors[id] else Rank(FirstTime(input.activities, id), LAST_RANK)
    case NoticeItem(OfCloudRun(id)) => Rank(RunTime(input.cloudRuns, id), LAST_RANK)
    case NoticeItem(OfLimit(_)) => LAST_RANK
  }

  /** The body of that loop, apart from what it notes of twins and limits. */
  method CollectEvent(e: ThreadEvent, ids: set<string>, seen: set<string>, shown: string -> string)
    returns (items: seq<Item>, seenNow: set<string>)
    ensures items == ItemsOf(e, ids, seen, shown) && seenNow == SeenAfter(e, ids, seen, shown)
  {
    items, seenNow := [], seen;
    if IsRoutine(e) { return; }
    if e.role == User {
      if e.clientId.Some? && e.clientId.value in ids { return; }
      var text := shown(e.text);
      if text != "" && text in seen { return; }
      if text != "" { seenNow := seen + {text}; }
      return [EventItem(e.(text := text))], seenNow;
    }
    if e.role == Assistant || e.role == Tool { seenNow := {}; }
    items := [EventItem(e)];
  }

  /** The first loop of `buildTranscriptItems`: events, without the twins of
      bubbles, whose places it keeps. */
  method CollectEvents(events: seq<ThreadEvent>, ids: set<string>, shown: string -> string)
    returns (items: seq<Item>, twins: map<string, nat>, suppressedLimit: bool)
    ensures items == EventItems(events, ids, {}, shown)
    ensures forall id :: id in ids ==>
              (id in twins <==> TwinTime(events, id).Some?) && (id in twins ==> twins[id] == TwinTime(events, id).value)
    ensures suppressedLimit == exists e :: e in events && IsRoutine(e) && e.kind.UsageLimit?
  {
    items, twins, suppressedLimit := [], map[], false;
    var seen: set<string> := {};
    for i := 0 to |events|
      invariant items + EventItems(events[i..], ids, seen, shown) == EventItems(events, ids, {}, shown)
      invariant forall id :: id in ids ==>
                  && (id in twins <==> TwinTime(events[..i], id).Some?)
                  && (id in twins ==> twins[id] == TwinTime(events[..i], id).value)
      invariant suppressedLimit == exists k :: 0 <= k < i && IsRoutine(events[k]) && events[k].kind.UsageLimit?
    {
      var e := events[i];
      assert events[i..][1..] == events[i + 1..];
      assert events[..i + 1][..i] == events[..i];
      if IsRoutine(e) && e.kind.UsageLimit? { suppressedLimit := true; }
      if IsTwin(e, ids) { twins := twins[e.clientId.value := e.ts]; }
      var now, seenNow := CollectEvent(e, ids, seen, shown);
      Rejoined(items, now, EventItems(events[i + 1..], ids, seenNow, shown));
      items, seen := items + now, seenNow;
    }
    assert events[..|events|] == events;
    assert items + [] == items;
  }

  lemma Rejoined<T>(a: seq<T>, b: seq<T>, c: seq<T>)
    ensures a + (b + c) == a + b + c
    ensures b == [] ==> a + (b + c) == a + c
  {}

  /** The loop over activities. */
  method CollectActivities(activities: seq<Activity>, hidden: set<string>)
    returns (items: seq<Item>, limitAdded: bool)
    ensures items == ActivityItems(activities, hidden)
    ensures limitAdded == exists a :: a in activities && (a.id in hidden || (Shown(a) && IsLimit(a)))
  {
    items, limitAdded := [], false;
    for i := 0 to |activities|
      invariant items + ActivityItems(activities[i..], hidden) == ActivityItems(activities, hidden)
      invariant limitAdded == exists k :: 0 <= k < i
                                          && (activities[k].id in hidden || (Shown(activities[k]) && IsLimit(activities[k])))
    {
      var a := activities[i];
      assert activities[i..][1..] == activities[i + 1..];
      if a.id in hidden {
        limitAdded := true;
        continue;
      }
      if !Shown(a) { continue; }
      if IsLimit(a) { limitAdded := true; }
      Rejoined(items, [NoticeItem(OfActivity(a.id))], ActivityItems(activities[i + 1..], hidden));
      items := items + [NoticeItem(OfActivity(a.id))];
    }
    assert items + [] == items;
  }

  /** `buildTranscriptItems`. */
  method BuildTranscriptItems(input: Input, shown: string -> string) returns (items: seq<Item>)
    ensures items == Ordered(input, shown)
  {
    var ids := IdsOf(input.pending);
    var events, twins, suppressedLimit := CollectEvents(input.events, ids, shown);
    var hidden := SupersededActivities(input.activities);
    var notices, limitAdded := CollectActivities(input.activities, hidden);
    var limit: seq<Item> := [];
    if suppressedLimit && !limitAdded && input.thread.Some? {
      limit := [NoticeItem(OfLimit(input.thread.value))];
    }
    notices := notices + limit;
    items := events + (notices + CloudItems(input.cloudRuns) + QueuedItems(input.queued)) + PendingItems(input.pending);
    var anchors := SendTimeAnchors(input.activities, input.events);
    SortedByEitherKey(input, shown, twins, anchors);
    items := Sort(items, ByMaps(input, twins, anchors));
  }

  function ByMaps(input: Input, twins: map<string, nat>, anchors: map<string, int>): Item -> int {
    (item: Item) => KeyFrom(input, twins, anchors, item)
  }

  lemma MapsGiveKey(input: Input, twins: map<string, nat>, anchors: map<string, int>, item: Item)
    requires item.PendingItem? ==>
               var id := item.pending.id;
               && (id in twins <==> TwinTime(input.events, id).Some?)
               && (id in twins ==> twins[id] == TwinTime(input.events, id).value)
    requires item.NoticeItem? && item.id.OfActivity? ==>
               var id := item.id.id;
               && (id in anchors <==> Anchor(input.activities, input.events, id).Some?)
               && (id in anchors ==> anchors[id] == Anchor(input.activities, input.events, id).value)
    ensures KeyFrom(input, twins, anchors, item) == Key(input, item)
  {}

  lemma SortedByEitherKey(input: Input, shown: string -> string, twins: map<string, nat>, anchors: map<string, int>)
    requires forall id :: id in IdsOf(input.pending) ==>
               && (id in twins <==> TwinTime(input.events, id).Some?)
               && (id in twins ==> twins[id] == TwinTime(input.events, id).value)
    requires forall id :: (id in anchors <==> Anchor(input.activities, input.events, id).Some?)
                          && (id in anchors ==> anchors[id] == Anchor(input.activities, input.events, id).value)
    ensures Sort(Items(input, shown), ByMaps(input, twins, anchors)) == Ordered(input, shown)
  {
    PendingAreKnown(input, shown);
    forall item | item in Items(input, shown) ensures ByMaps(input, twins, anchors)(item) == ByKey(input)(item) {
      MapsGiveKey(input, twins, anchors, item);
    }
    SortSameKeys(Items(input, shown), ByMaps(input, twins, anchors), ByKey(input));
  }

  /** Only bubbles are pending items. */
  lemma PendingAreKnown(input: Input, shown: string -> string)
    ensures forall p :: PendingItem(p) in Items(input, shown) ==> p.id in IdsOf(input.pending)
  {
    forall p | PendingItem(p) in Items(input, shown) ensures p in input.pending {
      NoPendingInEvents(input.events, IdsOf(input.pending), {}, shown);
      NoPendingInOthers(input);
      PendingOnly(input.pending, p);
    }
  }

  lemma {:induction false} PendingOnly(pending: seq<PendingMessage>, p: PendingMessage)
    ensures PendingItem(p) in PendingItems(pending) ==> p in pending
  {
    if pending != [] {
      PendingOnly(pending[1..], p);
    }
  }

  predicate NoPending(items: seq<Item>) {
    forall item :: item in items ==> !item.PendingItem?
  }

  lemma {:induction false} NoPendingInEvents(events: seq<ThreadEvent>, ids: set<string>, seen: set<string>, shown: string -> string)
    ensures NoPending(EventItems(events, ids, seen, shown))
    decreases |events|
  {
    if events != [] {
      NoPendingInEvents(events[1..], ids, SeenAfter(events[0], ids, seen, shown), shown);
    }
  }

  lemma {:induction false} NoPendingInActivities(activities: seq<Activity>, hidden: set<string>)
    ensures NoPending(ActivityItems(activities, hidden))
  {
    if activities != [] {
      NoPendingInActivities(activities[1..], hidden);
    }
  }

  lemma {:induction false} NoPendingInRuns(runs: seq<CloudRun>)
    ensures NoPending(CloudItems(runs))
  {
    if runs != [] {
      NoPendingInRuns(runs[1..]);
    }
  }

  lemma {:induction false} NoPendingInQueued(queued: seq<QueuedTurn>)
    ensures NoPending(QueuedItems(queued))
  {
    if queued != [] {
      NoPendingInQueued(queued[1..]);
    }
  }

  lemma NoPendingInOthers(input: Input)
    ensures NoPending(OtherItems(input))
  {
    NoPendingInActivities(input.activities, Superseded(input.activities));
    NoPendingInRuns(input.cloudRuns);
    NoPendingInQueued(input.queued);
  }

  // ------------------------------------------------- main results: superseding

  /** For distinct activities, an opener is hidden exactly when an outcome for its
      agent follows it in time order before any repeat of it. */
  lemma SupersededIsExact(activities: seq<Activity>, i: nat)
    requires DistinctActivities(activities) && i < |Order(activities)|
    ensures Order(activities)[i].id in Superseded(activities) <==> Hidden(Order(activities), i)
  {
    var ordered := Order(activities);
    SortKeepsDistinct(activities, ActivityTime, ActivityId);
    assert forall a, b :: 0 <= a < b < |ordered| ==> ActivityId(ordered[a]) != ActivityId(ordered[b]);
  }

  /** An outcome is never an opener, so it is never hidden. */
  lemma OutcomesStay(activities: seq<Activity>, i: nat, j: nat)
    requires DistinctActivities(activities) && i < |Order(activities)| && ResolvedAt(Order(activities), i, j)
    ensures Order(activities)[j].id !in Superseded(activities) && Shown(Order(activities)[j])
  {
    SupersededIsExact(activities, j);
  }

  lemma {:induction false} ActivityIsListed(activities: seq<Activity>, hidden: set<string>, a: Activity)
    requires a in activities && a.id !in hidden && Shown(a)
    ensures NoticeItem(OfActivity(a.id)) in ActivityItems(activities, hidden)
  {
    if a != activities[0] {
      ActivityIsListed(activities[1..], hidden, a);
    }
  }

  lemma {:induction false} HiddenIsNotListed(activities: seq<Activity>, hidden: set<string>, id: string)
    requires id in hidden
    ensures NoticeItem(OfActivity(id)) !in ActivityItems(activities, hidden)
  {
    if activities != [] {
      HiddenIsNotListed(activities[1..], hidden, id);
    }
  }

  predicate NoActivityNotice(items: seq<Item>) {
    forall item :: item in items ==> item.NoticeItem? ==> !item.id.OfActivity?
  }

  lemma {:induction false} EventsAreNoNotices(events: seq<ThreadEvent>, ids: set<string>, seen: set<string>, shown: string -> string)
    ensures NoActivityNotice(EventItems(events, ids, seen, shown))
    decreases |events|
  {
    if events != [] {
      EventsAreNoNotices(events[1..], ids, SeenAfter(events[0], ids, seen, shown), shown);
    }
  }

  lemma {:induction false} RunsAreNoActivities(runs: seq<CloudRun>)
    ensures NoActivityNotice(CloudItems(runs))
  {
    if runs != [] {
      RunsAreNoActivities(runs[1..]);
    }
  }

  lemma {:induction false} QueuedAreNoNotices(queued: seq<QueuedTurn>)
    ensures NoActivityNotice(QueuedItems(queued))
  {
    if queued != [] {
      QueuedAreNoNotices(queued[1..]);
    }
  }

  lemma {:induction false} BubblesAreNoNotices(pending: seq<PendingMessage>)
    ensures NoActivityNotice(PendingItems(pending))
  {
    if pending != [] {
      BubblesAreNoNotices(pending[1..]);
    }
  }

  /** The transcript has an activity's notice exactly when the activity list does. */
  lemma NoticesComeFromActivities(input: Input, shown: string -> string, id: string)
    ensures NoticeItem(OfActivity(id)) in Ordered(input, shown)
            <==> NoticeItem(OfActivity(id)) in ActivityItems(input.activities, Superseded(input.activities))
  {
    SortMembers(Items(input, shown), ByKey(input), NoticeItem(OfActivity(id)));
    EventsAreNoNotices(input.events, IdsOf(input.pending), {}, shown);
    RunsAreNoActivities(input.cloudRuns);
    QueuedAreNoNotices(input.queued);
    BubblesAreNoNotices(input.pending);
  }

  /** Nothing is lost by hiding: a hidden opener has no notice, and an outcome that
      follows it has one. */
  lemma HiddenOpenersAreAnnounced(input: Input, shown: string -> string, i: nat)
    requires DistinctActivities(input.activities) && i < |Order(input.activities)|
    requires Hidden(Order(input.activities), i)
    ensures var ordered := Order(input.activities);
            && NoticeItem(OfActivity(ordered[i].id)) !in Ordered(input, shown)
            && exists j :: 0 <= j < |ordered| && ResolvedAt(ordered, i, j)
                           && NoticeItem(OfActivity(ordered[j].id)) in Ordered(input, shown)
  {
    var ordered := Order(input.activities);
    var hidden := Superseded(input.activities);
    SupersededIsExact(input.activities, i);
    HiddenIsNotListed(input.activities, hidden, ordered[i].id);
    NoticesComeFromActivities(input, shown, ordered[i].id);
    var j :| 0 <= j < |ordered| && ResolvedAt(ordered, i, j);
    OutcomesStay(input.activities, i, j);
    SortMembers(input.activities, ActivityTime, ordered[j]);
    ActivityIsListed(input.activities, hidden, ordered[j]);
    NoticesComeFromActivities(input, shown, ordered[j].id);
  }

  // ---------------------------------------------------- main results: anchoring

  /** A send-time notice that keeps its anchor: no later activity has its id. */
  predicate Anchored(activities: seq<Activity>, i: nat)
    requires i < |activities|
  {
    IsSendTime(activities[i]) && forall j :: i < j < |activities| ==> activities[j].id != activities[i].id
  }

  lemma {:induction false} AnchorOf(activities: seq<Activity>, events: seq<ThreadEvent>, i: nat)
    requires i < |activities| && Anchored(activities, i)
    ensures Anchor(activities, events, activities[i].id) == Some(AnchorKey(events, activities[i].ts))
    decreases |activities|
  {
    var n := |activities| - 1;
    if i < n {
      assert forall j :: i < j < n ==> activities[..n][j] == activities[j];
      AnchorOf(activities[..n], events, i);
    }
  }

  /** Only anchors have odd keys. */
  lemma OddKeysAreAnchors(input: Input, item: Item)
    requires Key(input, item) % 2 == 1
    ensures item.NoticeItem? && item.id.OfActivity? && Anchor(input.activities, input.events, item.id.id) == Some(Key(input, item))
  {}

  /** A send-time notice follows whatever is shown of its triggering message, bubble
      or event. All that comes between has that message's very time, or is another
      notice of the same message. */
  lemma NoticeFollowsItsMessage(input: Input, shown: string -> string, a: nat, p: nat, q: nat)
    requires a < |input.activities| && Anchored(input.activities, a)
    requires Trigger(input.events, input.activities[a].ts).Some?
    requires var items := Ordered(input, shown);
             p < |items| && q < |items| && items[q] == NoticeItem(OfActivity(input.activities[a].id))
             && Key(input, items[p]) == 2 * Trigger(input.events, input.activities[a].ts).value
    ensures var items := Ordered(input, shown);
            && p < q
            && forall k :: p < k < q ==>
                 || Key(input, items[k]) == Key(input, items[p])
                 || (&& items[k].NoticeItem? && items[k].id.OfActivity?
                     && Anchor(input.activities, input.events, items[k].id.id) == Some(Key(input, items[q])))
  {
    var items := Ordered(input, shown);
    var t := Trigger(input.events, input.activities[a].ts).value;
    NoticeKey(input, a);
    OrderedByKey(input, shown);
    forall k | p < k < q && Key(input, items[k]) != 2 * t
      ensures items[k].NoticeItem? && items[k].id.OfActivity?
              && Anchor(input.activities, input.events, items[k].id.id) == Some(2 * t + 1)
    {
      OddBetween(Key(input, items[k]), t);
      OddKeysAreAnchors(input, items[k]);
    }
  }

  lemma OddBetween(key: int, t: nat)
    requires 2 * t <= key <= 2 * t + 1 && key != 2 * t
    ensures key == 2 * t + 1 && key % 2 == 1
  {}

  lemma NoticeKey(input: Input, a: nat)
    requires a < |input.activities| && Anchored(input.activities, a)
    ensures Key(input, NoticeItem(OfActivity(input.activities[a].id))) == AnchorKey(input.events, input.activities[a].ts)
  {
    AnchorOf(input.activities, input.events, a);
  }

  lemma OrderedByKey(input: Input, shown: string -> string)
    ensures var items := Ordered(input, shown);
            forall i, j :: 0 <= i < j < |items| ==> Key(input, items[i]) <= Key(input, items[j])
  {
    SortSorts(Items(input, shown), ByKey(input));
    var items := Ordered(input, shown);
    assert forall i, j :: 0 <= i < j < |items| ==> ByKey(input)(items[i]) <= ByKey(input)(items[j]);
  }

  /** Before its message is persisted, a send-time notice trails every dated item,
      queued turn and bubble. */
  lemma NoticeTrailsTheBubble(input: Input, shown: string -> string, a: nat, p: nat, q: nat)
    requires a < |input.activities| && Anchored(input.activities, a)
    requires Trigger(input.events, input.activities[a].ts).None?
    requires var items := Ordered(input, shown);
             p < |items| && q < |items| && items[q] == NoticeItem(OfActivity(input.activities[a].id))
             && (items[p].PendingItem? || items[p].QueuedItem? || items[p].EventItem?)
             && (items[p].EventItem? ==> items[p].event.ts < 1_000_000_000_000_000)
             && (items[p].PendingItem? ==> TwinTime(input.events, items[p].pending.id).None?)
    ensures p < q
  {
    NoticeKey(input, a);
    OrderedByKey(input, shown);
  }

  // ----------------------------------------------------- main results: hand-over

  /** Event `e` is the persisted twin of bubble `q`, the only one, and no other
      message of the thread shows the same text, unless that is empty. */
  ghost predicate HandsOver(input: Input, e: nat, q: nat, shown: string -> string)
    requires e < |input.events| && q < |input.pending|
  {
    var twin, bubble := input.events[e], input.pending[q];
    && IsMessage(twin) && twin.clientId == Some(bubble.id)
    && (forall i :: 0 <= i < |input.pending| && i != q ==> input.pending[i].id != bubble.id)
    && (forall i :: 0 <= i < |input.events| && i != e && IsMessage(input.events[i]) ==>
          Unrelated(input.events[i], bubble.id, shown(twin.text), shown))
  }

  /** The view once the bubble is gone. */
  function Landed(input: Input, q: nat): Input
    requires q < |input.pending|
  {
    input.(pending := Without(input.pending, q))
  }

  function TwinItem(twin: ThreadEvent, shown: string -> string): Item {
    EventItem(twin.(text := shown(twin.text)))
  }

  predicate Unrelated(e: ThreadEvent, id: string, text: string, shown: string -> string) {
    IsMessage(e) ==> e.clientId != Some(id) && (text != "" ==> shown(e.text) != text)
  }

  /** Events other than the twin show the same with and without the bubble, whether
      or not the twin's text has been noted. */
  lemma {:induction false} OthersUnchanged(events: seq<ThreadEvent>, ids: set<string>, id: string, seen: set<string>,
                                           noted: set<string>, text: string, shown: string -> string)
    requires forall e :: e in events ==> Unrelated(e, id, text, shown)
    requires noted == seen || (text != "" && noted == seen + {text})
    ensures EventItems(events, ids, seen, shown) == EventItems(events, ids - {id}, noted, shown)
    decreases |events|
  {
    if events != [] {
      var e := events[0];
      assert Unrelated(e, id, text, shown);
      assert forall x :: x in events[1..] ==> x in events;
      OthersUnchanged(events[1..], ids, id, SeenAfter(e, ids, seen, shown), SeenAfter(e, ids - {id}, noted, shown), text, shown);
    }
  }

  /** The events of the two views: the twin comes in where it was left out. */
  lemma {:induction false} TwinComesIn(events: seq<ThreadEvent>, ids: set<string>, e: nat, id: string, seen: set<string>,
                                       shown: string -> string)
    returns (p: nat)
    requires e < |events| && IsMessage(events[e]) && events[e].clientId == Some(id) && id in ids
    requires forall i :: 0 <= i < |events| && i != e ==> Unrelated(events[i], id, shown(events[e].text), shown)
    requires shown(events[e].text) == "" || shown(events[e].text) !in seen
    ensures var now := EventItems(events, ids - {id}, seen, shown);
            p < |now| && now[p] == TwinItem(events[e], shown) && Without(now, p) == EventItems(events, ids, seen, shown)
    decreases |events|
  {
    if e == 0 {
      p := 0;
      TwinFirst(events, ids, id, seen, shown);
    } else {
      var first, rest := events[0], events[1..];
      var later := SeenAfter(first, ids, seen, shown);
      FirstIsUnchanged(first, ids, id, seen, shown);
      assert rest[e - 1] == events[e];
      StillUnseen(first, ids, seen, events[e], id, shown);
      var r := TwinComesIn(rest, ids, e - 1, id, later, shown);
      p := |ItemsOf(first, ids, seen, shown)| + r;
      WithoutBehind(ItemsOf(first, ids, seen, shown), EventItems(rest, ids - {id}, later, shown), r);
    }
  }

  lemma StillUnseen(e: ThreadEvent, ids: set<string>, seen: set<string>, twin: ThreadEvent, id: string, shown: string -> string)
    requires Unrelated(e, id, shown(twin.text), shown)
    requires shown(twin.text) == "" || shown(twin.text) !in seen
    ensures shown(twin.text) == "" || shown(twin.text) !in SeenAfter(e, ids, seen, shown)
  {}

  lemma TwinFirst(events: seq<ThreadEvent>, ids: set<string>, id: string, seen: set<string>, shown: string -> string)
    requires events != [] && IsMessage(events[0]) && events[0].clientId == Some(id) && id in ids
    requires forall i :: 1 <= i < |events| ==> Unrelated(events[i], id, shown(events[0].text), shown)
    requires shown(events[0].text) == "" || shown(events[0].text) !in seen
    ensures var now := EventItems(events, ids - {id}, seen, shown);
            now != [] && now[0] == TwinItem(events[0], shown) && Without(now, 0) == EventItems(events, ids, seen, shown)
  {
    var first, rest, text := events[0], events[1..], shown(events[0].text);
    var noted := SeenAfter(first, ids - {id}, seen, shown);
    OthersUnchanged(rest, ids, id, seen, noted, text, shown);
    assert ItemsOf(first, ids - {id}, seen, shown) == [TwinItem(first, shown)];
    assert ItemsOf(first, ids, seen, shown) == [];
  }

  lemma FirstIsUnchanged(e: ThreadEvent, ids: set<string>, id: string, seen: set<string>, shown: string -> string)
    requires IsMessage(e) ==> e.clientId != Some(id)
    ensures ItemsOf(e, ids - {id}, seen, shown) == ItemsOf(e, ids, seen, shown)
    ensures SeenAfter(e, ids - {id}, seen, shown) == SeenAfter(e, ids, seen, shown)
  {}

  lemma WithoutBehind<T>(a: seq<T>, b: seq<T>, i: nat)
    requires i < |b|
    ensures (a + b)[|a| + i] == b[i] && Without(a + b, |a| + i) == a + Without(b, i)
  {}

  lemma WithoutAhead<T>(a: seq<T>, b: seq<T>, i: nat)
    requires i < |a|
    ensures (a + b)[i] == a[i] && Without(a + b, i) == Without(a, i) + b
  {}

  lemma {:induction false} PendingWithout(pending: seq<PendingMessage>, q: nat)
    requires q < |pending|
    ensures |PendingItems(pending)| == |pending| && PendingItems(pending)[q] == PendingItem(pending[q])
    ensures PendingItems(Without(pending, q)) == Without(PendingItems(pending), q)
  {
    PendingLength(pending);
    if q == 0 {
      assert Without(pending, 0) == pending[1..];
    } else {
      PendingWithout(pending[1..], q - 1);
      assert Without(pending, q) == [pending[0]] + Without(pending[1..], q - 1);
      assert Without(pending, q)[1..] == Without(pending[1..], q - 1);
      WithoutBehind([PendingItem(pending[0])], PendingItems(pending[1..]), q - 1);
    }
  }

  lemma {:induction false} PendingLength(pending: seq<PendingMessage>)
    ensures |PendingItems(pending)| == |pending|
  {
    if pending != [] {
      PendingLength(pending[1..]);
    }
  }

  /** All items but the bubble and its event, in building order. */
  function Rest(input: Input, q: nat, shown: string -> string): seq<Item>
    requires q < |input.pending|
  {
    EventItems(input.events, IdsOf(input.pending), {}, shown) + OtherItems(input) + PendingItems(Without(input.pending, q))
  }

  lemma IdsWithout(pending: seq<PendingMessage>, q: nat)
    requires q < |pending| && forall i :: 0 <= i < |pending| && i != q ==> pending[i].id != pending[q].id
    ensures IdsOf(Without(pending, q)) == IdsOf(pending) - {pending[q].id}
  {
    var rest := Without(pending, q);
    forall id | id in IdsOf(pending) - {pending[q].id} ensures id in IdsOf(rest) {
      var i :| 0 <= i < |pending| && pending[i].id == id;
      assert pending[i] == rest[if i < q then i else i - 1];
    }
    forall i | 0 <= i < |rest| ensures rest[i].id != pending[q].id && rest[i] in pending {
      assert rest[i] == pending[if i < q then i else i + 1];
    }
  }

  lemma OtherItemsDoNotSeeBubbles(input: Input, pending: seq<PendingMessage>)
    ensures OtherItems(input.(pending := pending)) == OtherItems(input)
  {
    var other := input.(pending := pending);
    assert LimitItems(other, Superseded(input.activities)) == LimitItems(input, Superseded(input.activities));
  }

  /** The view with the bubble is the rest with one item put in. */
  lemma BubbleView(input: Input, q: nat, shown: string -> string) returns (p: nat)
    requires q < |input.pending|
    ensures var items := Items(input, shown);
            p < |items| && items[p] == PendingItem(input.pending[q]) && Without(items, p) == Rest(input, q, shown)
  {
    var front := EventItems(input.events, IdsOf(input.pending), {}, shown) + OtherItems(input);
    PendingWithout(input.pending, q);
    p := |front| + q;
    WithoutBehind(front, PendingItems(input.pending), q);
  }

  /** So is the view without it. */
  lemma EventView(input: Input, e: nat, q: nat, shown: string -> string) returns (r: nat)
    requires e < |input.events| && q < |input.pending| && HandsOver(input, e, q, shown)
    ensures var items := Items(Landed(input, q), shown);
            r < |items| && items[r] == TwinItem(input.events[e], shown) && Without(items, r) == Rest(input, q, shown)
  {
    var ids, id := IdsOf(input.pending), input.pending[q].id;
    assert input.pending[q] in input.pending;
    r := TwinComesIn(input.events, ids, e, id, {}, shown);
    var now, events := EventItems(input.events, ids - {id}, {}, shown), EventItems(input.events, ids, {}, shown);
    var bubbles := PendingItems(Without(input.pending, q));
    LandedItems(input, q, shown);
    WithoutAhead(now, OtherItems(input), r);
    WithoutAhead(now + OtherItems(input), bubbles, r);
  }

  lemma LandedItems(input: Input, q: nat, shown: string -> string)
    requires q < |input.pending|
    requires forall i :: 0 <= i < |input.pending| && i != q ==> input.pending[i].id != input.pending[q].id
    ensures Items(Landed(input, q), shown)
            == EventItems(input.events, IdsOf(input.pending) - {input.pending[q].id}, {}, shown) + OtherItems(input)
               + PendingItems(Without(input.pending, q))
  {
    IdsWithout(input.pending, q);
    OtherItemsDoNotSeeBubbles(input, Without(input.pending, q));
  }

  lemma {:induction false} TwinTimeIs(events: seq<ThreadEvent>, e: nat, id: string)
    requires e < |events| && IsMessage(events[e]) && events[e].clientId == Some(id)
    requires forall i :: 0 <= i < |events| && i != e && IsMessage(events[i]) ==> events[i].clientId != Some(id)
    ensures TwinTime(events, id) == Some(events[e].ts)
    decreases |events|
  {
    var n := |events| - 1;
    if e < n {
      TwinTimeIs(events[..n], e, id);
    }
  }

  lemma SameKeysAfterLanding(input: Input, q: nat, item: Item)
    requires q < |input.pending|
    ensures Key(Landed(input, q), item) == Key(input, item)
  {}

  /** Handing over is invisible: if no other item has the message's time, the two
      views are the same list with the bubble in one and its event in the other. */
  lemma HandOverIsInvisible(input: Input, e: nat, q: nat, shown: string -> string) returns (before: seq<Item>, after: seq<Item>)
    requires e < |input.events| && q < |input.pending| && HandsOver(input, e, q, shown)
    requires forall item :: item in Rest(input, q, shown) ==> Key(input, item) != 2 * input.events[e].ts
    ensures Ordered(input, shown) == before + [PendingItem(input.pending[q])] + after
    ensures Ordered(Landed(input, q), shown) == before + [TwinItem(input.events[e], shown)] + after
  {
    var landed, rest, key := Landed(input, q), Rest(input, q, shown), ByKey(input);
    var bubble, twin := PendingItem(input.pending[q]), TwinItem(input.events[e], shown);
    var p := BubbleView(input, q, shown);
    var r := EventView(input, e, q, shown);
    TwinTimeIs(input.events, e, input.pending[q].id);
    SortOneIn(Items(input, shown), p, key);
    forall item | item in Items(landed, shown) ensures ByKey(landed)(item) == key(item) {
      SameKeysAfterLanding(input, q, item);
    }
    SortSameKeys(Items(landed, shown), ByKey(landed), key);
    SortOneIn(Items(landed, shown), r, key);
    InsertPlaces(Sort(rest, key), bubble, key);
    InsertPlaces(Sort(rest, key), twin, key);
    var place := Place(Sort(rest, key), key, 2 * input.events[e].ts);
    before, after := Sort(rest, key)[..place], Sort(rest, key)[place..];
  }

  lemma SortOneIn(items: seq<Item>, p: nat, key: Item -> int)
    requires p < |items| && forall item :: item in Without(items, p) ==> key(item) != key(items[p])
    ensures Sort(items, key) == Insert(Sort(Without(items, p), key), items[p], key)
  {
    forall j | p < j < |items| ensures key(items[j]) != key(items[p]) {
      assert items[j] == Without(items, p)[j - 1];
    }
    SortWithUnique(items, p, key);
  }
}
