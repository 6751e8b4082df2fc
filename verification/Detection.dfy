/** The detection cache of the workbench controller and the two revision counters
    that guard it (src/node/workbenchController.ts). */
module Detection {
  import opened Wrappers

  // ------------------------------------------------------------------ data model

  const DETECTION_TTL_MS := 60_000

  /** `Date.now()`: long past the first minute of the epoch. */
  type Clock = n: nat | n >= DETECTION_TTL_MS witness DETECTION_TTL_MS

  /** A value together with the account revision it was read under. */
  datatype Stamped = Stamped(value: string, stamp: nat)

  datatype Health = Loading | Ready | Failed

  /** The cache. `freshBy` records which detection revision the probe that last set
      `at` was started under. */
  datatype Cache = Cache(at: nat, freshBy: nat, agents: string, models: string, modelState: Option<Health>, others: string,
                         limitPolicy: Option<Stamped>, providerAccounts: Stamped, accountState: Option<(Health, nat)>,
                         state: Health)

  /** A running probe: the revisions it started under and what it has read. */
  datatype Probe = Probe(accountRevision: nat, detectionRevision: nat, failed: bool, agents: Option<string>,
                         models: Option<string>, others: Option<string>, limitPolicy: Option<Option<Stamped>>,
                         statuses: Option<Stamped>, providerAccounts: Option<Stamped>)

  /** `detectInflight`: settled until its `finally` has run. */
  datatype Slot = Idle | Running(probe: Probe) | Settled

  /** `refreshing` holds the revisions of the account refreshes that still wait for
      the daemon, `owed` counts settled probes whose follow-up has not run. */
  datatype State = State(disposed: bool, accountRevision: nat, detectionRevision: nat, cache: Option<Cache>, slot: Slot,
                         refreshing: set<nat>, owed: nat)

  const INITIAL := State(false, 0, 0, None, Idle, {}, 0)

  function EmptyCache(state: Health): Cache {
    Cache(0, 0, "[]", "[]", None, "[]", None, Stamped("[]", 0), None, state)
  }

  datatype ProbeStep =
    | AgentsRead(value: string) | AgentsFailed
    | ModelsRead(value: string) | ModelsFailed
    | OthersRead(value: string)
    | LimitRead(value: string) | LimitFailed
    | AccountsRead(value: string) | AccountsPolicyRead(value: string) | AccountsFailed
    | ProbeFinishes(now: Clock) | ProbeCrashes(now: Clock)

  datatype Step =
    | Invalidate
    | Detect(now: Clock)
    | BeginRefresh
    | FinishRefresh(revision: nat, accounts: string, policy: string, now: Clock)
    | AbandonRefresh(revision: nat)
    | InProbe(step: ProbeStep)
    | SlotCleared
    | FollowUp(now: Clock)
    | Dispose

  // ----------------------------------------------------------------- the probe

  /** The guard of `publish`. */
  predicate Accepted(s: State, p: Probe, accounts: bool) {
    && !s.disposed && p.detectionRevision == s.detectionRevision
    && (accounts ==> p.accountRevision == s.accountRevision)
  }

  function Read(p: Probe, value: string): Stamped {
    Stamped(value, p.accountRevision)
  }

  /** What a read of the probe leaves in the cache. */
  function Published(s: State, c: Cache, p: Probe, q: ProbeStep): Cache {
    match q
    case AgentsRead(v) => if Accepted(s, p, false) then c.(agents := v) else c
    case ModelsRead(v) => if Accepted(s, p, false) then c.(models := v, modelState := Some(Ready)) else c
    case ModelsFailed => if Accepted(s, p, false) then c.(modelState := Some(Failed)) else c
    case LimitRead(v) => if Accepted(s, p, true) then c.(limitPolicy := Some(Read(p, v))) else c
    case AccountsRead(v) =>
      if Accepted(s, p, true) then c.(providerAccounts := Read(p, v), accountState := Some((Ready, p.accountRevision))) else c
    case AccountsPolicyRead(v) =>
      if Accepted(s, p, true) then c.(limitPolicy := Some(Read(p, v))) else c
    case AccountsFailed => if Accepted(s, p, true) then c.(accountState := Some((Failed, p.accountRevision))) else c
    case _ => c
  }

  /** What the probe keeps of it: a failed read falls back on the cache as it is. */
  function Noted(p: Probe, c: Cache, q: ProbeStep): Probe {
    match q
    case AgentsRead(v) => p.(agents := Some(v))
    case AgentsFailed => p.(agents := Some(c.agents), failed := true)
    case ModelsRead(v) => p.(models := Some(v))
    case ModelsFailed => p.(models := Some(c.models), failed := true)
    case OthersRead(v) => p.(others := Some(v))
    case LimitRead(v) => p.(limitPolicy := Some(Some(Read(p, v))))
    case LimitFailed => p.(limitPolicy := Some(c.limitPolicy), failed := true)
    case AccountsRead(v) => p.(statuses := Some(Read(p, v)))
    case AccountsPolicyRead(v) => p.(providerAccounts := p.statuses)
    case AccountsFailed => p.(providerAccounts := Some(c.providerAccounts), failed := true)
    case _ => p
  }

  /** Whether the probe is where it can take this step. */
  predicate Due(p: Probe, q: ProbeStep) {
    match q
    case AgentsRead(_) => p.agents.None?
    case AgentsFailed => p.agents.None?
    case ModelsRead(_) => p.models.None?
    case ModelsFailed => p.models.None?
    case OthersRead(_) => p.others.None?
    case LimitRead(_) => p.limitPolicy.None?
    case LimitFailed => p.limitPolicy.None?
    case AccountsRead(_) => p.statuses.None? && p.providerAccounts.None?
    case AccountsPolicyRead(_) => p.statuses.Some? && p.providerAccounts.None?
    case AccountsFailed => p.providerAccounts.None?
    case ProbeFinishes(_) => Complete(p)
    case ProbeCrashes(_) => Complete(p)
  }

  predicate Complete(p: Probe) {
    && p.agents.Some? && p.models.Some? && p.others.Some?
    && p.limitPolicy.Some? && p.providerAccounts.Some?
  }

  /** The cache a complete probe leaves. */
  function Finished(s: State, c: Cache, p: Probe, now: Clock): Cache
    requires Complete(p)
  {
    if p.detectionRevision != s.detectionRevision then c.(at := 0)
    else
      Cache(
        now, p.detectionRevision, p.agents.value, p.models.value, c.modelState, p.others.value,
        if c.limitPolicy.Some? || p.accountRevision != s.accountRevision then c.limitPolicy else p.limitPolicy.value,
        if p.accountRevision != s.accountRevision then c.providerAccounts else p.providerAccounts.value,
        c.accountState,
        if p.failed then Failed else Ready)
  }

  /** The cache after a probe that threw. */
  function Crashed(s: State, c: Cache, p: Probe, now: Clock): Cache {
    if p.detectionRevision == s.detectionRevision
    then c.(at := now, freshBy := p.detectionRevision, state := Failed)
    else c.(at := 0, state := Failed)
  }

  function ProbeNext(s: State, q: ProbeStep): State {
    if !s.slot.Running? || s.cache.None? || !Due(s.slot.probe, q) then s
    else
      var p, c := s.slot.probe, s.cache.value;
      match q
      case ProbeFinishes(now) => s.(cache := Some(Finished(s, c, p, now)), slot := Settled)
      case ProbeCrashes(now) => s.(cache := Some(Crashed(s, c, p, now)), slot := Settled)
      case _ => s.(cache := Some(Published(s, c, p, q)), slot := Running(Noted(p, c, q)))
  }

  // ------------------------------------------------------------- the controller

  /** `runDetection`: nothing new while a probe is in flight. */
  function RunDetection(s: State): State {
    if !s.slot.Idle? then s
    else
      s.(cache := if s.cache.Some? then s.cache else Some(EmptyCache(Loading)),
         slot := Running(Probe(s.accountRevision, s.detectionRevision, false, None, None, None, None, None, None)))
  }

  /** `detect`. */
  function DetectNow(s: State, now: Clock): State {
    if s.cache.None? then RunDetection(s.(cache := Some(EmptyCache(Loading))))
    else if now - s.cache.value.at >= DETECTION_TTL_MS && s.slot.Idle? then RunDetection(s)
    else s
  }

  function Invalidated(s: State): State {
    s.(detectionRevision := s.detectionRevision + 1,
       cache := if s.cache.Some? then Some(s.cache.value.(at := 0)) else None)
  }

  /** `refreshProviderAccounts` after its two requests. */
  function Refreshed(s: State, revision: nat, accounts: string, policy: string, now: Clock): State {
    var patched :=
      if s.cache.Some? && revision == s.accountRevision
      then s.(cache := Some(s.cache.value.(limitPolicy := Some(Stamped(policy, revision)),
                                           providerAccounts := Stamped(accounts, revision),
                                           accountState := Some((Ready, revision)))))
      else s;
    var done := patched.(refreshing := s.refreshing - {revision});
    if done.cache.Some? && done.cache.value.at == 0 then DetectNow(done, now) else done
  }

  function Next(s: State, step: Step): State {
    match step
    case Invalidate => Invalidated(s)
    case Detect(now) => DetectNow(s, now)
    case BeginRefresh =>
      s.(accountRevision := s.accountRevision + 1, refreshing := s.refreshing + {s.accountRevision + 1})
    case FinishRefresh(r, accounts, policy, now) =>
      if r in s.refreshing then Refreshed(s, r, accounts, policy, now) else s
    case AbandonRefresh(r) => s.(refreshing := s.refreshing - {r})
    case InProbe(q) => ProbeNext(s, q)
    case SlotCleared => if s.slot.Settled? then s.(slot := Idle, owed := s.owed + 1) else s
    case FollowUp(now) =>
      if s.owed == 0 then s
      else
        var done := s.(owed := s.owed - 1);
        if !s.disposed && s.cache.Some? && s.cache.value.at == 0 then DetectNow(done, now) else done
    case Dispose => s.(disposed := true)
  }

  /** The state after the first `n` steps. */
  function After(s: State, steps: seq<Step>, n: nat): State
    requires n <= |steps|
  {
    if n == 0 then s else Next(After(s, steps, n - 1), steps[n - 1])
  }

  // -------------------------------------------------------------- the invariant

  function LimitStamp(c: Cache): nat {
    if c.limitPolicy.Some? then c.limitPolicy.value.stamp else 0
  }

  function StateStamp(c: Cache): nat {
    if c.accountState.Some? then c.accountState.value.1 else 0
  }

  ghost predicate Inv(s: State) {
    && (s.slot.Running? ==>
          var p := s.slot.probe;
          && s.cache.Some?
          && p.accountRevision <= s.accountRevision && p.detectionRevision <= s.detectionRevision
          && (p.statuses.Some? ==> p.statuses.value.stamp == p.accountRevision)
          && (p.providerAccounts.Some? && !p.failed ==> p.providerAccounts == p.statuses))
    && (s.cache.Some? ==>
          var c := s.cache.value;
          && LimitStamp(c) <= s.accountRevision && StateStamp(c) <= s.accountRevision
          && c.providerAccounts.stamp <= s.accountRevision
          && (c.at != 0 ==> c.freshBy == s.detectionRevision))
    && (forall r :: r in s.refreshing ==> r <= s.accountRevision)
    && (s.slot.Running? && s.slot.probe.providerAccounts.Some? ==>
          s.slot.probe.providerAccounts.value.stamp <= s.accountRevision)
    && (s.slot.Running? && s.slot.probe.limitPolicy.Some? && s.slot.probe.limitPolicy.value.Some? ==>
          s.slot.probe.limitPolicy.value.value.stamp <= s.accountRevision)
  }

  lemma ProbeKeepsInv(s: State, q: ProbeStep)
    requires Inv(s)
    ensures Inv(ProbeNext(s, q))
  {}

  lemma NextKeepsInv(s: State, step: Step)
    requires Inv(s)
    ensures Inv(Next(s, step))
  {
    if step.InProbe? {
      ProbeKeepsInv(s, step.step);
    }
  }

  lemma {:induction false} RunKeepsInv(s: State, steps: seq<Step>, n: nat)
    requires Inv(s) && n <= |steps|
    ensures Inv(After(s, steps, n))
  {
    if n > 0 {
      RunKeepsInv(s, steps, n - 1);
      NextKeepsInv(After(s, steps, n - 1), steps[n - 1]);
    }
  }

  lemma InitialInv()
    ensures Inv(INITIAL)
  {}

  // --------------------------------------------------------------- main results

  datatype AccountFields = AccountFields(limitPolicy: Option<Stamped>, providerAccounts: Stamped,
                                         accountState: Option<(Health, nat)>)

  function FieldsOf(c: Cache): AccountFields {
    AccountFields(c.limitPolicy, c.providerAccounts, c.accountState)
  }

  lemma RevisionStep(s: State, step: Step)
    requires Inv(s)
    ensures Next(s, step).accountRevision >= s.accountRevision
    ensures s.slot.Running? && Next(s, step).slot.Running? ==>
              Next(s, step).slot.probe.accountRevision == s.slot.probe.accountRevision
  {}

  /** The revision a running probe started under is its own until it settles. */
  lemma {:induction false} ProbeKeepsRevision(s: State, steps: seq<Step>, n: nat)
    requires Inv(s) && s.slot.Running? && n <= |steps|
    requires forall i :: 0 <= i <= n ==> After(s, steps, i).slot.Running?
    ensures After(s, steps, n).slot.probe.accountRevision == s.slot.probe.accountRevision
    ensures After(s, steps, n).accountRevision >= s.accountRevision
  {
    if n > 0 {
      ProbeKeepsRevision(s, steps, n - 1);
      RunKeepsInv(s, steps, n - 1);
      RevisionStep(After(s, steps, n - 1), steps[n - 1]);
    }
  }

  lemma OldProbeStep(s: State, q: ProbeStep)
    requires Inv(s) && s.slot.Running? && s.slot.probe.accountRevision < s.accountRevision
    ensures s.cache.Some? && ProbeNext(s, q).cache.Some?
            && FieldsOf(ProbeNext(s, q).cache.value) == FieldsOf(s.cache.value)
  {}

  /** Once an account refresh has taken a revision, a probe started before it
      changes no account field, however long it runs on and whatever else happens. */
  lemma OldProbesAreSilent(s: State, steps: seq<Step>, n: nat, q: ProbeStep)
    requires Inv(s) && s.slot.Running? && s.slot.probe.accountRevision < s.accountRevision && n <= |steps|
    requires forall i :: 0 <= i <= n ==> After(s, steps, i).slot.Running?
    ensures var now := After(s, steps, n);
            && now.cache.Some? && ProbeNext(now, q).cache.Some?
            && FieldsOf(ProbeNext(now, q).cache.value) == FieldsOf(now.cache.value)
  {
    ProbeKeepsRevision(s, steps, n);
    RunKeepsInv(s, steps, n);
    OldProbeStep(After(s, steps, n), q);
  }

  /** A probe finishes under both of its revisions: its account list is taken. */
  predicate TakesProbesList(s: State, step: Step) {
    && step.InProbe? && step.step.ProbeFinishes? && s.slot.Running? && s.cache.Some?
    && Complete(s.slot.probe)
    && s.slot.probe.detectionRevision == s.detectionRevision && s.slot.probe.accountRevision == s.accountRevision
  }

  /** No step takes the limit policy or the account state back to an older
      revision, and the account list only where a probe with a failed read is
      taken under its own revisions. */
  lemma RevisionsOnlyGrow(s: State, step: Step)
    requires Inv(s) && s.cache.Some?
    ensures var now := Next(s, step);
            && now.cache.Some?
            && LimitStamp(s.cache.value) <= LimitStamp(now.cache.value)
            && StateStamp(s.cache.value) <= StateStamp(now.cache.value)
            && (now.cache.value.providerAccounts.stamp < s.cache.value.providerAccounts.stamp ==>
                  TakesProbesList(s, step) && s.slot.probe.failed)
  {
    if step.InProbe? {
      ProbeRevisionsGrow(s, step.step);
    }
  }

  lemma ProbeRevisionsGrow(s: State, q: ProbeStep)
    requires Inv(s) && s.cache.Some?
    ensures var now := ProbeNext(s, q);
            && now.cache.Some?
            && LimitStamp(s.cache.value) <= LimitStamp(now.cache.value)
            && StateStamp(s.cache.value) <= StateStamp(now.cache.value)
            && (now.cache.value.providerAccounts.stamp < s.cache.value.providerAccounts.stamp ==>
                  TakesProbesList(s, InProbe(q)) && s.slot.probe.failed)
  {}

  // ------------------------------------------------- where the shown list is from

  /** A refresh puts the list it has read into the cache. */
  predicate RefreshWrites(s: State, step: Step) {
    step.FinishRefresh? && step.revision in s.refreshing && s.cache.Some? && step.revision == s.accountRevision
  }

  /** The running probe's account read comes in, or fails. */
  predicate EndsRead(s: State, step: Step) {
    && step.InProbe? && s.slot.Running? && s.cache.Some? && Due(s.slot.probe, step.step)
    && (step.step.AccountsRead? || step.step.AccountsFailed?)
  }

  predicate ShowsRead(s: State, step: Step) {
    EndsRead(s, step) && step.step.AccountsRead? && Accepted(s, s.slot.probe, true)
  }

  /** The account list the cache shows. */
  function Shown(s: State): string {
    if s.cache.Some? then s.cache.value.providerAccounts.value else "[]"
  }

  /** The account list the running probe has, read or fallen back on. */
  function ProbesList(s: State): Option<string> {
    if !s.slot.Running? then None
    else if s.slot.probe.providerAccounts.Some? then Some(s.slot.probe.providerAccounts.value.value)
    else if s.slot.probe.statuses.Some? then Some(s.slot.probe.statuses.value.value)
    else None
  }

  lemma ListStep(s: State, step: Step)
    requires Inv(s)
    ensures Shown(Next(s, step)) ==
            if RefreshWrites(s, step) then step.accounts
            else if ShowsRead(s, step) then step.step.value
            else if TakesProbesList(s, step) then s.slot.probe.providerAccounts.value.value
            else Shown(s)
    ensures TakesProbesList(s, step) ==> ProbesList(s) == Some(s.slot.probe.providerAccounts.value.value)
    ensures Next(s, step).accountRevision >= s.accountRevision
  {}

  lemma ProbesListStep(s: State, step: Step)
    requires Inv(s) && ProbesList(Next(s, step)).Some?
    ensures s.slot.Running? && Next(s, step).slot.Running?
    ensures ProbesList(Next(s, step)) ==
            if EndsRead(s, step) then Some(if step.step.AccountsRead? then step.step.value else Shown(s)) else ProbesList(s)
  {}

  function At(steps: seq<Step>, n: nat): State
    requires n <= |steps|
  {
    After(INITIAL, steps, n)
  }

  /** How many steps the run had taken when the list now shown came in; 0 for the
      empty list of the beginning. */
  function ShownSince(steps: seq<Step>, n: nat): (r: nat)
    requires n <= |steps|
    ensures r <= n
  {
    if n == 0 then 0
    else
      var s, step := At(steps, n - 1), steps[n - 1];
      if RefreshWrites(s, step) || ShowsRead(s, step) then n
      else if TakesProbesList(s, step) then ProbesSince(steps, n - 1)
      else ShownSince(steps, n - 1)
  }

  /** The same for the list of the running probe. */
  function ProbesSince(steps: seq<Step>, n: nat): (r: nat)
    requires n <= |steps|
    ensures r <= n
  {
    if n == 0 then 0
    else if EndsRead(At(steps, n - 1), steps[n - 1]) then
      if steps[n - 1].step.AccountsRead? then n else ShownSince(steps, n - 1)
    else ProbesSince(steps, n - 1)
  }

  /** The list that came in with the `m`th step. */
  function CameIn(steps: seq<Step>, m: nat): string
    requires m <= |steps|
  {
    if m == 0 then "[]"
    else match steps[m - 1]
         case FinishRefresh(_, accounts, _, _) => accounts
         case InProbe(AccountsRead(value)) => value
         case _ => "[]"
  }

  /** The two are what they are called: the lists shown, and of the probe, are
      those that came in then. */
  lemma {:induction false} ListsCameIn(steps: seq<Step>, n: nat)
    requires n <= |steps|
    ensures Inv(At(steps, n))
    ensures Shown(At(steps, n)) == CameIn(steps, ShownSince(steps, n))
    ensures ProbesList(At(steps, n)).Some? ==> ProbesList(At(steps, n)).value == CameIn(steps, ProbesSince(steps, n))
  {
    InitialInv();
    RunKeepsInv(INITIAL, steps, n);
    if n > 0 {
      ListsCameIn(steps, n - 1);
      ShownCameIn(steps, n - 1);
      if ProbesList(At(steps, n)).Some? {
        ProbesListStep(At(steps, n - 1), steps[n - 1]);
      }
    }
  }

  lemma ShownCameIn(steps: seq<Step>, n: nat)
    requires n < |steps| && Inv(At(steps, n)) && Shown(At(steps, n)) == CameIn(steps, ShownSince(steps, n))
    requires ProbesList(At(steps, n)).Some? ==> ProbesList(At(steps, n)).value == CameIn(steps, ProbesSince(steps, n))
    ensures Shown(At(steps, n + 1)) == CameIn(steps, ShownSince(steps, n + 1))
  {
    ListStep(At(steps, n), steps[n]);
  }

  /** How many steps had been taken when a probe's account read last ended. */
  function ReadEnded(steps: seq<Step>, n: nat): (r: nat)
    requires n <= |steps|
    ensures r <= n
  {
    if n == 0 then 0 else if EndsRead(At(steps, n - 1), steps[n - 1]) then n else ReadEnded(steps, n - 1)
  }

  /** A refresh has written since then. */
  predicate Overtaken(steps: seq<Step>, n: nat)
    requires n <= |steps|
  {
    exists j {:trigger At(steps, j)} :: ReadEnded(steps, n) <= j < n && RefreshWrites(At(steps, j), steps[j])
  }

  lemma {:induction false} OvertakenLists(steps: seq<Step>, n: nat)
    requires n <= |steps|
    ensures ProbesList(At(steps, n)).Some? ==> (ProbesSince(steps, n) < ShownSince(steps, n) <==> Overtaken(steps, n))
  {
    if n > 0 && ProbesList(At(steps, n)).Some? {
      var s, step := At(steps, n - 1), steps[n - 1];
      OvertakenLists(steps, n - 1);
      ListsCameIn(steps, n - 1);
      ProbesListStep(s, step);
      if !EndsRead(s, step) {
        if RefreshWrites(s, step) {
          assert Overtaken(steps, n);
        } else {
          assert !TakesProbesList(s, step);
          OvertakenStays(steps, n);
        }
      }
    }
  }

  lemma OvertakenStays(steps: seq<Step>, n: nat)
    requires 0 < n <= |steps| && !EndsRead(At(steps, n - 1), steps[n - 1]) && !RefreshWrites(At(steps, n - 1), steps[n - 1])
    ensures Overtaken(steps, n) <==> Overtaken(steps, n - 1)
  {}

  /** In every run the list shown goes back to one that came in earlier exactly
      where a probe finishes under both of its revisions although a refresh, of
      the revision the probe has too, wrote after the probe's account read had
      come in or failed. What is shown then is the list of that read, or the one
      shown when it failed. */
  lemma ListGoesBackExactlyWhenOvertaken(steps: seq<Step>, n: nat)
    requires n < |steps|
    ensures ShownSince(steps, n + 1) < ShownSince(steps, n) <==>
            TakesProbesList(At(steps, n), steps[n]) && Overtaken(steps, n)
    ensures TakesProbesList(At(steps, n), steps[n]) ==>
              && Shown(At(steps, n + 1)) == CameIn(steps, ProbesSince(steps, n))
              && WritesWithin(steps, ReadEnded(steps, n), n, At(steps, n).slot.probe.accountRevision,
                              At(steps, n).slot.probe.accountRevision)
  {
    ListsCameIn(steps, n);
    ListsCameIn(steps, n + 1);
    OvertakenLists(steps, n);
    ListStep(At(steps, n), steps[n]);
    WritesOfRevision(steps, n);
  }

  /** The refreshes that wrote in this part of the run are of these revisions. */
  ghost predicate WritesWithin(steps: seq<Step>, from: nat, n: nat, lowest: nat, highest: nat)
    requires n <= |steps|
  {
    forall j {:trigger At(steps, j)} :: from <= j < n && RefreshWrites(At(steps, j), steps[j]) ==>
      lowest <= steps[j].revision <= highest
  }

  lemma WritesSnoc(steps: seq<Step>, from: nat, n: nat, lowest: nat, highest: nat, now: nat)
    requires n < |steps| && WritesWithin(steps, from, n, lowest, highest) && highest <= now
    requires RefreshWrites(At(steps, n), steps[n]) ==> lowest <= steps[n].revision <= now
    ensures WritesWithin(steps, from, n + 1, lowest, now)
  {}

  lemma {:induction false} WritesOfRevision(steps: seq<Step>, n: nat)
    requires n <= |steps|
    ensures ProbesList(At(steps, n)).Some? ==>
              WritesWithin(steps, ReadEnded(steps, n), n, At(steps, n).slot.probe.accountRevision, At(steps, n).accountRevision)
  {
    if n > 0 && ProbesList(At(steps, n)).Some? {
      var s, t, step := At(steps, n - 1), At(steps, n), steps[n - 1];
      WritesOfRevision(steps, n - 1);
      ListsCameIn(steps, n - 1);
      ListStep(s, step);
      ProbesListStep(s, step);
      RevisionStep(s, step);
      if !EndsRead(s, step) {
        WritesSnoc(steps, ReadEnded(steps, n - 1), n - 1, s.slot.probe.accountRevision, s.accountRevision, t.accountRevision);
      }
    }
  }

  /** It happens from the very beginning on, with any list: a probe's account
      read fails, or comes in, the refresh that was under way writes its list,
      and the end of the probe puts the earlier one back. */
  lemma RefreshedAccountsCanBeLost(read: Option<string>, accounts: string, policy: string, now: Clock)
    ensures var steps := OvertakenRun(read, accounts, policy, now);
            && Shown(At(steps, |steps| - 1)) == accounts
            && Shown(At(steps, |steps|)) == (if read.Some? then read.value else "[]")
  {
    var steps := OvertakenRun(read, accounts, policy, now);
    FirstReads(steps, policy, now);
    if read.Some? {
      ReadIsPutBack(steps, read.value, accounts, policy, now);
    } else {
      FallbackIsPutBack(steps, accounts, policy, now);
    }
  }

  lemma RefreshedMeanwhile(s: State, accounts: string, policy: string, now: Clock)
    requires s.slot.Running? && s.cache.Some? && 1 in s.refreshing && s.accountRevision == 1
    ensures var t := Next(s, FinishRefresh(1, accounts, policy, now));
            && t.slot == s.slot && t.cache.Some? && Shown(t) == accounts
            && t.accountRevision == 1 && t.detectionRevision == s.detectionRevision
  {}

  lemma ReadIsPutBack(steps: seq<Step>, read: string, accounts: string, policy: string, now: Clock)
    requires |steps| == 10 && steps[6] == InProbe(AccountsRead(read)) && steps[7] == FinishRefresh(1, accounts, policy, now)
    requires steps[8] == InProbe(AccountsPolicyRead(policy)) && steps[9] == InProbe(ProbeFinishes(now))
    requires At(steps, 6) == BeforeAccounts(policy)
    ensures Shown(At(steps, 9)) == accounts && Shown(At(steps, 10)) == read
  {
    assert At(steps, 7) == ProbeNext(At(steps, 6), AccountsRead(read));
    assert At(steps, 8) == Next(At(steps, 7), steps[7]);
    RefreshedMeanwhile(At(steps, 7), accounts, policy, now);
    assert At(steps, 9) == ProbeNext(At(steps, 8), AccountsPolicyRead(policy));
    assert At(steps, 10) == ProbeNext(At(steps, 9), ProbeFinishes(now));
  }

  lemma FallbackIsPutBack(steps: seq<Step>, accounts: string, policy: string, now: Clock)
    requires |steps| == 9 && steps[6] == InProbe(AccountsFailed) && steps[7] == FinishRefresh(1, accounts, policy, now)
    requires steps[8] == InProbe(ProbeFinishes(now)) && At(steps, 6) == BeforeAccounts(policy)
    ensures Shown(At(steps, 8)) == accounts && Shown(At(steps, 9)) == "[]"
  {
    assert At(steps, 7) == ProbeNext(At(steps, 6), AccountsFailed);
    assert At(steps, 8) == Next(At(steps, 7), steps[7]);
    RefreshedMeanwhile(At(steps, 7), accounts, policy, now);
    assert At(steps, 9) == ProbeNext(At(steps, 8), ProbeFinishes(now));
  }

  function BeforeAccounts(policy: string): State {
    var limit := Some(Stamped(policy, 1));
    State(false, 1, 0, Some(EmptyCache(Loading).(modelState := Some(Ready), limitPolicy := limit)),
          Running(Probe(1, 0, false, Some("[]"), Some("[]"), Some("[]"), Some(limit), None, None)), {1}, 0)
  }

  lemma FirstReads(steps: seq<Step>, policy: string, now: Clock)
    requires |steps| >= 6
    requires steps[0] == BeginRefresh && steps[1] == Detect(now) && steps[2] == InProbe(AgentsRead("[]"))
    requires steps[3] == InProbe(ModelsRead("[]")) && steps[4] == InProbe(OthersRead("[]")) && steps[5] == InProbe(LimitRead(policy))
    ensures At(steps, 6) == BeforeAccounts(policy)
  {
    assert At(steps, 0) == INITIAL;
    assert At(steps, 1) == Next(INITIAL, BeginRefresh) && INITIAL.refreshing + {1} == {1};
    assert At(steps, 2) == RunDetection(At(steps, 1).(cache := Some(EmptyCache(Loading))));
    assert At(steps, 3) == ProbeNext(At(steps, 2), AgentsRead("[]"));
    assert At(steps, 4) == ProbeNext(At(steps, 3), ModelsRead("[]"));
    assert At(steps, 5) == ProbeNext(At(steps, 4), OthersRead("[]"));
    assert At(steps, 6) == ProbeNext(At(steps, 5), LimitRead(policy));
  }

  function OvertakenRun(read: Option<string>, accounts: string, policy: string, now: Clock): seq<Step> {
    [BeginRefresh, Detect(now), InProbe(AgentsRead("[]")), InProbe(ModelsRead("[]")), InProbe(OthersRead("[]")),
     InProbe(LimitRead(policy))]
    + (if read.Some?
       then [InProbe(AccountsRead(read.value)), FinishRefresh(1, accounts, policy, now), InProbe(AccountsPolicyRead(policy))]
       else [InProbe(AccountsFailed), FinishRefresh(1, accounts, policy, now)])
    + [InProbe(ProbeFinishes(now))]
  }

  /** A probe starts at step `i` of a run. */
  predicate StartsProbe(s: State, steps: seq<Step>, i: nat)
    requires i < |steps|
  {
    !After(s, steps, i).slot.Running? && After(s, steps, i + 1).slot.Running?
  }

  /** After an invalidation the cache is fresh again only once a probe started
      after it: a probe that was running does not count. */
  lemma {:induction false} FreshOnlyThroughLaterProbe(s: State, steps: seq<Step>, n: nat)
    requires Inv(s) && n <= |steps|
    ensures var begin := Invalidated(s); var now := After(begin, steps, n);
            && now.detectionRevision >= begin.detectionRevision
            && ((now.cache.Some? && now.cache.value.at != 0)
                || (now.slot.Running? && now.slot.probe.detectionRevision >= begin.detectionRevision) ==>
                  exists i :: 0 <= i < n && StartsProbe(begin, steps, i))
  {
    var begin := Invalidated(s);
    NextKeepsInv(s, Invalidate);
    if n > 0 {
      FreshOnlyThroughLaterProbe(s, steps, n - 1);
      RunKeepsInv(begin, steps, n - 1);
      BecomesFresh(After(begin, steps, n - 1), steps[n - 1]);
      assert StartsProbe(begin, steps, n - 1) <==>
          !After(begin, steps, n - 1).slot.Running? && After(begin, steps, n).slot.Running?;
    }
  }

  /** What makes the cache fresh, or a current probe run. */
  lemma BecomesFresh(s: State, step: Step)
    requires Inv(s)
    ensures var now := Next(s, step);
            && now.detectionRevision >= s.detectionRevision
            && (now.cache.Some? && now.cache.value.at != 0 ==>
                  || (s.cache.Some? && s.cache.value.at != 0)
                  || (s.slot.Running? && s.slot.probe.detectionRevision == s.detectionRevision))
            && (now.slot.Running? && s.slot.Running? ==>
                  now.slot.probe.detectionRevision == s.slot.probe.detectionRevision)
  {}

  /** A probe that an invalidation overtook is followed by a new one as soon as it
      has settled. */
  lemma OvertakenProbeIsFollowed(s: State, finished: Clock, now: Clock)
    requires Inv(s) && s.slot.Running? && !s.disposed && Complete(s.slot.probe)
    requires s.slot.probe.detectionRevision != s.detectionRevision
    ensures var next := Next(Next(Next(s, InProbe(ProbeFinishes(finished))), SlotCleared), FollowUp(now));
            && next.slot.Running? && next.slot.probe.detectionRevision == s.detectionRevision
            && next.slot.probe.accountRevision == s.accountRevision
            && next.cache.Some? && FieldsOf(next.cache.value) == FieldsOf(s.cache.value)
  {}

  // -------------------------------------------------------------- the controller

  /** The controller's detection fields, updated in place. */
  class WorkbenchController {
    var disposed: bool
    var accountRevision: nat
    var detectionRevision: nat
    var detectionCache: Option<Cache>
    var detectInflight: Slot
    var refreshing: set<nat>
    var owed: nat

    constructor ()
      ensures Now() == INITIAL
    {
      disposed, accountRevision, detectionRevision := false, 0, 0;
      detectionCache, detectInflight, refreshing, owed := None, Idle, {}, 0;
    }

    function Now(): State
      reads this
    {
      State(disposed, accountRevision, detectionRevision, detectionCache, detectInflight, refreshing, owed)
    }

    method InvalidateDetection()
      modifies this
      ensures Now() == Next(old(Now()), Invalidate)
    {
      detectionRevision := detectionRevision + 1;
      if detectionCache.Some? {
        detectionCache := Some(detectionCache.value.(at := 0));
      }
    }

    method StartDetection()
      modifies this
      ensures Now() == RunDetection(old(Now()))
    {
      if !detectInflight.Idle? { return; }
      if detectionCache.None? { detectionCache := Some(EmptyCache(Loading)); }
      detectInflight := Running(Probe(accountRevision, detectionRevision, false, None, None, None, None, None, None));
    }

    /** `detect`: what is known now, and a probe in the background when it is old. */
    method Detect(now: Clock) returns (cached: Cache)
      modifies this
      ensures Now() == Next(old(Now()), Step.Detect(now))
      ensures detectionCache == Some(cached) && (old(detectionCache).Some? ==> detectionCache == old(detectionCache))
    {
      if detectionCache.Some? {
        cached := detectionCache.value;
        if now - cached.at >= DETECTION_TTL_MS && detectInflight.Idle? { StartDetection(); }
      } else {
        cached := EmptyCache(Loading);
        detectionCache := Some(cached);
        StartDetection();
      }
    }

    method TakeRevision() returns (revision: nat)
      modifies this
      ensures Now() == Next(old(Now()), BeginRefresh) && revision == accountRevision
    {
      accountRevision := accountRevision + 1;
      revision := accountRevision;
      refreshing := refreshing + {revision};
    }

    /** `refreshProviderAccounts` after its requests. */
    method ApplyAccounts(revision: nat, accounts: string, policy: string, now: Clock)
      requires revision in refreshing
      modifies this
      ensures Now() == Next(old(Now()), FinishRefresh(revision, accounts, policy, now))
    {
      if detectionCache.Some? && revision == accountRevision {
        detectionCache := Some(detectionCache.value.(limitPolicy := Some(Stamped(policy, revision)),
                                                     providerAccounts := Stamped(accounts, revision),
                                                     accountState := Some((Ready, revision))));
      }
      refreshing := refreshing - {revision};
      if detectionCache.Some? && detectionCache.value.at == 0 {
        var _ := Detect(now);
      }
    }

    /** `publish`. */
    method Publish(p: Probe, patched: Cache, accounts: bool)
      requires detectionCache.Some?
      modifies `detectionCache
      ensures detectionCache == Some(if Accepted(old(Now()), p, accounts) then patched else old(detectionCache).value)
    {
      if || disposed || p.detectionRevision != detectionRevision
         || (accounts && p.accountRevision != accountRevision) { return; }
      detectionCache := Some(patched);
    }

    /** A read of the probe comes in, or fails. */
    method ContinueProbe(q: ProbeStep)
      requires detectInflight.Running? && detectionCache.Some? && Due(detectInflight.probe, q)
      requires !q.ProbeFinishes? && !q.ProbeCrashes?
      modifies this
      ensures Now() == Next(old(Now()), InProbe(q))
    {
      var p, c := detectInflight.probe, detectionCache.value;
      match q {
        case AgentsRead(v) => Publish(p, c.(agents := v), false);
        case ModelsRead(v) => Publish(p, c.(models := v, modelState := Some(Ready)), false);
        case ModelsFailed => Publish(p, c.(modelState := Some(Failed)), false);
        case LimitRead(v) => Publish(p, c.(limitPolicy := Some(Read(p, v))), true);
        case AccountsRead(v) =>
          Publish(p, c.(providerAccounts := Read(p, v), accountState := Some((Ready, p.accountRevision))), true);
        case AccountsPolicyRead(v) => Publish(p, c.(limitPolicy := Some(Read(p, v))), true);
        case AccountsFailed => Publish(p, c.(accountState := Some((Failed, p.accountRevision))), true);
        case _ =>
      }
      detectInflight := Running(Noted(p, c, q));
    }

    /** The end of a probe: its result, unless something newer is known. */
    method FinishProbe(now: Clock)
      requires detectInflight.Running? && detectionCache.Some? && Complete(detectInflight.probe)
      modifies this
      ensures Now() == Next(old(Now()), InProbe(ProbeFinishes(now)))
    {
      var p, c := detectInflight.probe, detectionCache.value;
      var next := Cache(now, p.detectionRevision, p.agents.value, p.models.value, c.modelState, p.others.value,
                        if c.limitPolicy.Some? then c.limitPolicy else p.limitPolicy.value, p.providerAccounts.value,
                        c.accountState, if p.failed then Failed else Ready);
      if p.accountRevision != accountRevision {
        next := next.(providerAccounts := c.providerAccounts, limitPolicy := c.limitPolicy);
      }
      if p.detectionRevision != detectionRevision {
        detectionCache := Some(c.(at := 0));
      } else {
        detectionCache := Some(next);
      }
      detectInflight := Settled;
    }

    /** `finishDetection`. */
    method FinishDetection(now: Clock)
      requires owed > 0
      modifies this
      ensures Now() == Next(old(Now()), FollowUp(now))
    {
      owed := owed - 1;
      if !disposed && detectionCache.Some? && detectionCache.value.at == 0 {
        var _ := Detect(now);
      }
    }
  }
}
