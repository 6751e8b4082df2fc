/** Matching the repositories of a shared session with local clones:
    `mapRepositories` (src/node/collaborationWorker.ts). */
module RepositoryMap {
  import opened Wrappers

  /** `remoteUrl` is empty for a repository without one. */
  datatype Repo = Repo(id: string, name: string, remoteUrl: string)

  datatype Binding = Binding(repoId: string, repoName: string)

  /** `toLowerCase` and `normalizeRemote`. */
  datatype Normal = Normal(lower: string -> string, remote: string -> string)

  datatype Outcome = Mapped(local: Repo) | Missing | Ambiguous

  /** `Map` built from the list: a repeated id keeps its last entry. */
  function ById(repos: seq<Repo>, id: string): Option<Repo> {
    if repos == [] then None
    else if repos[|repos| - 1].id == id then Some(repos[|repos| - 1])
    else ById(repos[..|repos| - 1], id)
  }

  predicate SameRemote(n: Normal, central: Option<Repo>, local: Repo) {
    && central.Some? && central.value.remoteUrl != "" && local.remoteUrl != ""
    && n.remote(central.value.remoteUrl) == n.remote(local.remoteUrl)
  }

  predicate SameName(n: Normal, b: Binding, local: Repo) {
    n.lower(local.name) == n.lower(b.repoName)
  }

  /** The local repositories that are still free and satisfy `p`, in order. */
  function Free(locals: seq<Repo>, used: set<string>, p: Repo -> bool): seq<Repo> {
    if locals == [] then []
    else (if locals[0].id !in used && p(locals[0]) then [locals[0]] else []) + Free(locals[1..], used, p)
  }

  function Choose(n: Normal, b: Binding, central: Option<Repo>, locals: seq<Repo>, used: set<string>, only: bool): Outcome {
    var remote := Free(locals, used, l => SameRemote(n, central, l));
    var named := Free(locals, used, l => SameName(n, b, l));
    if |remote| == 1 then Mapped(remote[0])
    else if |remote| > 1 then Ambiguous
    else if |named| == 1 then Mapped(named[0])
    else if |named| > 1 then Ambiguous
    else if only && |locals| == 1 then Mapped(locals[0])
    else Missing
  }

  function UsedBy(outcomes: seq<Outcome>): set<string> {
    set o | o in outcomes && o.Mapped? :: o.local.id
  }

  /** What becomes of the first `k` bindings. */
  function Outcomes(n: Normal, bindings: seq<Binding>, centrals: seq<Repo>, locals: seq<Repo>, k: nat): (out: seq<Outcome>)
    requires k <= |bindings|
    ensures |out| == k
  {
    if k == 0 then []
    else
      var before := Outcomes(n, bindings, centrals, locals, k - 1);
      var b := bindings[k - 1];
      before + [Choose(n, b, ById(centrals, b.repoId), locals, UsedBy(before), |bindings| == 1)]
  }

  /** Names of the bindings that fared like `o`. */
  function NamesOf(bindings: seq<Binding>, outcomes: seq<Outcome>, o: Outcome, k: nat): seq<string>
    requires k <= |bindings| && k <= |outcomes|
  {
    if k == 0 then []
    else NamesOf(bindings, outcomes, o, k - 1) + (if outcomes[k - 1] == o then [bindings[k - 1].repoName] else [])
  }

  function CentralToLocal(bindings: seq<Binding>, outcomes: seq<Outcome>, k: nat): map<string, string>
    requires k <= |bindings| && k <= |outcomes|
  {
    if k == 0 then map[]
    else
      var before := CentralToLocal(bindings, outcomes, k - 1);
      if outcomes[k - 1].Mapped? then before[bindings[k - 1].repoId := outcomes[k - 1].local.id] else before
  }

  function LocalToCentral(bindings: seq<Binding>, outcomes: seq<Outcome>, k: nat): map<string, string>
    requires k <= |bindings| && k <= |outcomes|
  {
    if k == 0 then map[]
    else
      var before := LocalToCentral(bindings, outcomes, k - 1);
      if outcomes[k - 1].Mapped? then before[outcomes[k - 1].local.id := bindings[k - 1].repoId] else before
  }

  /** The keys of the second map in the order of their insertion. */
  function LocalIds(outcomes: seq<Outcome>, k: nat): seq<string>
    requires k <= |outcomes|
  {
    if k == 0 then []
    else
      var before := LocalIds(outcomes, k - 1);
      if outcomes[k - 1].Mapped? && outcomes[k - 1].local.id !in before then before + [outcomes[k - 1].local.id] else before
  }

  lemma {:induction false} LocalIdsAreKeys(bindings: seq<Binding>, outcomes: seq<Outcome>, k: nat)
    requires k <= |bindings| && k <= |outcomes|
    ensures forall y :: y in LocalIds(outcomes, k) <==> y in LocalToCentral(bindings, outcomes, k)
  {
    if k > 0 {
      LocalIdsAreKeys(bindings, outcomes, k - 1);
    }
  }

  method Filter(locals: seq<Repo>, used: set<string>, p: Repo -> bool) returns (out: seq<Repo>)
    ensures out == Free(locals, used, p)
  {
    out := [];
    for i := 0 to |locals|
      invariant out + Free(locals[i..], used, p) == Free(locals, used, p)
    {
      assert locals[i..][1..] == locals[i + 1..];
      if locals[i].id !in used && p(locals[i]) {
        out := out + [locals[i]];
      }
    }
  }

  /** The choice for one binding. */
  method Decide(n: Normal, b: Binding, central: Option<Repo>, locals: seq<Repo>, used: set<string>, only: bool)
    returns (outcome: Outcome)
    ensures outcome == Choose(n, b, central, locals, used, only)
  {
    var remote := Filter(locals, used, l => SameRemote(n, central, l));
    var named := Filter(locals, used, l => SameName(n, b, l));
    outcome := Missing;
    if |remote| == 1 { outcome := Mapped(remote[0]); }
    else if |remote| > 1 { outcome := Ambiguous; }
    else if |named| == 1 { outcome := Mapped(named[0]); }
    else if |named| > 1 { outcome := Ambiguous; }
    else if only && |locals| == 1 { outcome := Mapped(locals[0]); }
  }

  /** `mapRepositories`. */
  method MapRepositories(n: Normal, bindings: seq<Binding>, centrals: seq<Repo>, locals: seq<Repo>)
    returns (centralToLocal: map<string, string>, localToCentral: map<string, string>,
             repoIds: seq<string>, missing: seq<string>, ambiguous: seq<string>)
    ensures var outcomes := Outcomes(n, bindings, centrals, locals, |bindings|);
            && centralToLocal == CentralToLocal(bindings, outcomes, |bindings|)
            && localToCentral == LocalToCentral(bindings, outcomes, |bindings|)
            && repoIds == LocalIds(outcomes, |bindings|)
            && missing == NamesOf(bindings, outcomes, Missing, |bindings|)
            && ambiguous == NamesOf(bindings, outcomes, Ambiguous, |bindings|)
  {
    centralToLocal, localToCentral, repoIds, missing, ambiguous := map[], map[], [], [], [];
    var used: set<string> := {};
    ghost var all := Outcomes(n, bindings, centrals, locals, |bindings|);
    for i := 0 to |bindings|
      invariant used == UsedBy(all[..i])
      invariant centralToLocal == CentralToLocal(bindings, all, i) && localToCentral == LocalToCentral(bindings, all, i)
      invariant repoIds == LocalIds(all, i)
      invariant missing == NamesOf(bindings, all, Missing, i) && ambiguous == NamesOf(bindings, all, Ambiguous, i)
    {
      var b := bindings[i];
      var central := ById(centrals, b.repoId);
      var outcome := Decide(n, b, central, locals, used, |bindings| == 1);
      assert outcome == all[i] by { OutcomeAt(n, bindings, centrals, locals, i); }
      UsedGrows(all, i);
      LocalIdsAreKeys(bindings, all, i);
      match outcome {
        case Ambiguous => ambiguous := ambiguous + [b.repoName];
        case Missing => missing := missing + [b.repoName];
        case Mapped(local) =>
          used := used + {local.id};
          if local.id !in localToCentral { repoIds := repoIds + [local.id]; }
          centralToLocal := centralToLocal[b.repoId := local.id];
          localToCentral := localToCentral[local.id := b.repoId];
      }
    }
  }

  lemma UsedGrows(all: seq<Outcome>, i: nat)
    requires i < |all|
    ensures UsedBy(all[..i + 1]) == UsedBy(all[..i]) + (if all[i].Mapped? then {all[i].local.id} else {})
  {
    assert all[..i + 1] == all[..i] + [all[i]];
  }

  /** Later bindings do not change earlier outcomes. */
  lemma {:induction false} OutcomesGrow(n: Normal, bindings: seq<Binding>, centrals: seq<Repo>, locals: seq<Repo>, j: nat, k: nat)
    requires j <= k <= |bindings|
    ensures Outcomes(n, bindings, centrals, locals, k)[..j] == Outcomes(n, bindings, centrals, locals, j)
  {
    if j < k {
      OutcomesGrow(n, bindings, centrals, locals, j, k - 1);
      var before := Outcomes(n, bindings, centrals, locals, k - 1);
      assert Outcomes(n, bindings, centrals, locals, k)[..k - 1] == before;
      assert Outcomes(n, bindings, centrals, locals, k)[..j] == before[..j];
    }
  }

  lemma OutcomeAt(n: Normal, bindings: seq<Binding>, centrals: seq<Repo>, locals: seq<Repo>, i: nat)
    requires i < |bindings|
    ensures var all := Outcomes(n, bindings, centrals, locals, |bindings|); var b := bindings[i];
            all[i] == Choose(n, b, ById(centrals, b.repoId), locals, UsedBy(all[..i]), |bindings| == 1)
  {
    OutcomesGrow(n, bindings, centrals, locals, i + 1, |bindings|);
    OutcomesGrow(n, bindings, centrals, locals, i, |bindings|);
    var all := Outcomes(n, bindings, centrals, locals, |bindings|);
    assert all[i] == all[..i + 1][i];
  }

  // --------------------------------------------------------------- main results

  lemma {:induction false} FreeIsFree(locals: seq<Repo>, used: set<string>, p: Repo -> bool, l: Repo)
    ensures l in Free(locals, used, p) <==> l in locals && l.id !in used && p(l)
  {
    if locals != [] {
      FreeIsFree(locals[1..], used, p, l);
      assert l in locals <==> l == locals[0] || l in locals[1..];
    }
  }

  /** Clone `k` is still there for binding `i` and satisfies `p`. */
  predicate Candidate(all: seq<Outcome>, i: nat, locals: seq<Repo>, p: Repo -> bool, k: nat)
    requires i <= |all|
  {
    k < |locals| && p(locals[k]) && !GivenBefore(all, i, locals[k].id)
  }

  ghost predicate NoCandidate(all: seq<Outcome>, i: nat, locals: seq<Repo>, p: Repo -> bool)
    requires i <= |all|
  {
    forall k: nat :: !Candidate(all, i, locals, p, k)
  }

  /** Clone `l` is the one candidate. */
  ghost predicate SoleCandidate(all: seq<Outcome>, i: nat, locals: seq<Repo>, p: Repo -> bool, l: Repo)
    requires i <= |all|
  {
    exists k: nat :: Candidate(all, i, locals, p, k) && locals[k] == l && forall j: nat :: Candidate(all, i, locals, p, j) ==> j == k
  }

  ghost predicate SeveralCandidates(all: seq<Outcome>, i: nat, locals: seq<Repo>, p: Repo -> bool)
    requires i <= |all|
  {
    exists j: nat, k: nat :: j < k && Candidate(all, i, locals, p, j) && Candidate(all, i, locals, p, k)
  }

  /** What is in the filtered list, from position `from` on. */
  lemma {:induction false} FreeFrom(locals: seq<Repo>, from: nat, used: set<string>, p: Repo -> bool)
    requires from <= |locals|
    ensures var free := Free(locals[from..], used, p);
            && (|free| == 0 <==> forall k :: from <= k < |locals| ==> !(locals[k].id !in used && p(locals[k])))
            && (|free| == 1 ==> exists k :: from <= k < |locals| && IsSole(locals, from, used, p, k) && free == [locals[k]])
            && (|free| > 1 ==> exists j, k :: from <= j < k < |locals| && locals[j].id !in used && p(locals[j])
                                             && locals[k].id !in used && p(locals[k]))
    decreases |locals| - from
  {
    if from < |locals| {
      var rest := locals[from..];
      assert rest[1..] == locals[from + 1..] && rest[0] == locals[from];
      FreeFrom(locals, from + 1, used, p);
      var free, later := Free(rest, used, p), Free(locals[from + 1..], used, p);
      if locals[from].id !in used && p(locals[from]) {
        assert free == [locals[from]] + later;
        if later == [] {
          assert IsSole(locals, from, used, p, from);
        } else if |later| == 1 {
          var k :| from + 1 <= k < |locals| && IsSole(locals, from + 1, used, p, k) && later == [locals[k]];
          assert locals[k].id !in used && p(locals[k]);
        }
      } else {
        assert free == later;
        if |later| == 1 {
          var k :| from + 1 <= k < |locals| && IsSole(locals, from + 1, used, p, k) && later == [locals[k]];
          assert IsSole(locals, from, used, p, k);
        }
      }
    }
  }

  predicate IsSole(locals: seq<Repo>, from: nat, used: set<string>, p: Repo -> bool, k: nat)
  {
    && from <= k < |locals| && locals[k].id !in used && p(locals[k])
    && forall j :: from <= j < |locals| && locals[j].id !in used && p(locals[j]) ==> j == k
  }

  lemma FreeIsCandidates(all: seq<Outcome>, i: nat, locals: seq<Repo>, p: Repo -> bool)
    requires i <= |all|
    ensures var free := Free(locals, UsedBy(all[..i]), p);
            && (|free| == 0 <==> NoCandidate(all, i, locals, p))
            && (|free| == 1 <==> exists l :: SoleCandidate(all, i, locals, p, l))
            && (forall l :: SoleCandidate(all, i, locals, p, l) ==> free == [l])
            && (|free| > 1 <==> SeveralCandidates(all, i, locals, p))
  {
    var used := UsedBy(all[..i]);
    UsedAreGiven(all, i);
    assert locals[0..] == locals;
    FreeFrom(locals, 0, used, p);
    var free := Free(locals, used, p);
    assert forall k: nat :: k < |locals| ==> (Candidate(all, i, locals, p, k) <==> locals[k].id !in used && p(locals[k]));
    if |free| == 1 {
      var k :| 0 <= k < |locals| && IsSole(locals, 0, used, p, k) && free == [locals[k]];
      assert Candidate(all, i, locals, p, k);
      assert SoleCandidate(all, i, locals, p, locals[k]);
    }
    if |free| > 1 {
      var j, k :| 0 <= j < k < |locals| && locals[j].id !in used && p(locals[j]) && locals[k].id !in used && p(locals[k]);
      assert Candidate(all, i, locals, p, j) && Candidate(all, i, locals, p, k);
    }
  }

  lemma UsedAreGiven(all: seq<Outcome>, i: nat)
    requires i <= |all|
    ensures forall id :: id in UsedBy(all[..i]) <==> GivenBefore(all, i, id)
  {
    forall id ensures id in UsedBy(all[..i]) <==> GivenBefore(all, i, id) {
      if GivenBefore(all, i, id) {
        var j: nat :| j < i && Gives(all, j, id);
        assert all[..i][j] == all[j];
      }
      if id in UsedBy(all[..i]) {
        var o :| o in all[..i] && o.Mapped? && o.local.id == id;
        var j :| 0 <= j < i && all[..i][j] == o;
        assert Gives(all, j, id);
      }
    }
  }

  /** What each binding gets, among the clones no earlier binding was given: the
      only one with its remote; if none has it, the only one with its name; if
      there is none either, the only clone if it is the only binding. It is
      ambiguous exactly where the deciding test fits several clones. */
  lemma OutcomeIsForced(n: Normal, bindings: seq<Binding>, centrals: seq<Repo>, locals: seq<Repo>, i: nat, l: Repo)
    requires i < |bindings|
    ensures var all, b := Outcomes(n, bindings, centrals, locals, |bindings|), bindings[i];
            var remote: Repo -> bool := x => SameRemote(n, ById(centrals, b.repoId), x);
            var named: Repo -> bool := x => SameName(n, b, x);
            && (all[i] == Mapped(l) <==>
                  || SoleCandidate(all, i, locals, remote, l)
                  || (NoCandidate(all, i, locals, remote) && SoleCandidate(all, i, locals, named, l))
                  || (NoCandidate(all, i, locals, remote) && NoCandidate(all, i, locals, named)
                      && bindings == [b] && locals == [l]))
            && (all[i] == Ambiguous <==>
                  || SeveralCandidates(all, i, locals, remote)
                  || (NoCandidate(all, i, locals, remote) && SeveralCandidates(all, i, locals, named)))
  {
    var all, b := Outcomes(n, bindings, centrals, locals, |bindings|), bindings[i];
    var remote: Repo -> bool := x => SameRemote(n, ById(centrals, b.repoId), x);
    var named: Repo -> bool := x => SameName(n, b, x);
    OutcomeAt(n, bindings, centrals, locals, i);
    FreeIsCandidates(all, i, locals, remote);
    FreeIsCandidates(all, i, locals, named);
  }

  /** The clones are listed once each, in the order of the bindings that got them. */
  lemma {:induction false} ClonesAreListedInOrder(n: Normal, bindings: seq<Binding>, centrals: seq<Repo>, locals: seq<Repo>, k: nat)
    requires k <= |bindings|
    ensures LocalIds(Outcomes(n, bindings, centrals, locals, |bindings|), k)
         == MappedIds(Outcomes(n, bindings, centrals, locals, |bindings|), k)
  {
    if k > 0 {
      var all := Outcomes(n, bindings, centrals, locals, |bindings|);
      ClonesAreListedInOrder(n, bindings, centrals, locals, k - 1);
      if all[k - 1].Mapped? && all[k - 1].local.id in LocalIds(all, k - 1) {
        LocalIdsAreGiven(all, k - 1, all[k - 1].local.id);
        var i: nat :| i < k - 1 && Gives(all, i, all[k - 1].local.id);
        CloneIsUsedOnce(n, bindings, centrals, locals, i, k - 1);
      }
    }
  }

  /** The clones of the first `k` outcomes. */
  function MappedIds(outcomes: seq<Outcome>, k: nat): seq<string>
    requires k <= |outcomes|
  {
    if k == 0 then []
    else if outcomes[k - 1].Mapped? then MappedIds(outcomes, k - 1) + [outcomes[k - 1].local.id]
    else MappedIds(outcomes, k - 1)
  }

  lemma {:induction false} LocalIdsAreGiven(outcomes: seq<Outcome>, k: nat, y: string)
    requires k <= |outcomes| && y in LocalIds(outcomes, k)
    ensures GivenBefore(outcomes, k, y)
  {
    if !Gives(outcomes, k - 1, y) {
      LocalIdsAreGiven(outcomes, k - 1, y);
    }
  }

  /** No clone is given to two bindings. */
  lemma CloneIsUsedOnce(n: Normal, bindings: seq<Binding>, centrals: seq<Repo>, locals: seq<Repo>, i: nat, j: nat)
    requires i < j < |bindings|
    requires var all := Outcomes(n, bindings, centrals, locals, |bindings|); all[i].Mapped? && all[j].Mapped?
    ensures var all := Outcomes(n, bindings, centrals, locals, |bindings|); all[i].local.id != all[j].local.id
  {
    var all := Outcomes(n, bindings, centrals, locals, |bindings|);
    OutcomeAt(n, bindings, centrals, locals, j);
    var used, b := UsedBy(all[..j]), bindings[j];
    assert all[..j][i] == all[i] && all[i].local.id in used;
    var central := ById(centrals, b.repoId);
    FreeIsFree(locals, used, l => SameRemote(n, central, l), all[j].local);
    FreeIsFree(locals, used, l => SameName(n, b, l), all[j].local);
  }

  ghost predicate Inverse(a: map<string, string>, b: map<string, string>) {
    && (forall x :: x in a ==> a[x] in b && b[a[x]] == x)
    && (forall y :: y in b ==> b[y] in a && a[b[y]] == y)
  }

  predicate Gives(outcomes: seq<Outcome>, i: nat, y: string)
    requires i < |outcomes|
  {
    outcomes[i].Mapped? && outcomes[i].local.id == y
  }

  predicate Links(bindings: seq<Binding>, outcomes: seq<Outcome>, i: nat, x: string, y: string)
    requires i < |outcomes| && i < |bindings|
  {
    Gives(outcomes, i, y) && bindings[i].repoId == x
  }

  predicate GivenBefore(outcomes: seq<Outcome>, k: nat, y: string)
    requires k <= |outcomes|
  {
    exists i: nat :: i < k && Gives(outcomes, i, y)
  }

  predicate LinkedBefore(bindings: seq<Binding>, outcomes: seq<Outcome>, k: nat, x: string, y: string)
    requires k <= |outcomes| && k <= |bindings|
  {
    exists i: nat :: i < k && Links(bindings, outcomes, i, x, y)
  }

  /** What the two maps hold, given that no clone is used twice. */
  lemma {:induction false} LocalEntries(bindings: seq<Binding>, outcomes: seq<Outcome>, k: nat)
    requires k <= |bindings| && |bindings| == |outcomes|
    requires forall i, j :: 0 <= i < j < k && outcomes[i].Mapped? && outcomes[j].Mapped? ==>
               outcomes[i].local.id != outcomes[j].local.id
    ensures var m := LocalToCentral(bindings, outcomes, k);
            && (forall i :: 0 <= i < k && outcomes[i].Mapped? ==>
                  outcomes[i].local.id in m && m[outcomes[i].local.id] == bindings[i].repoId)
    ensures forall y :: y in LocalToCentral(bindings, outcomes, k) ==> GivenBefore(outcomes, k, y)
  {
    if k > 0 {
      LocalEntries(bindings, outcomes, k - 1);
      var now := LocalToCentral(bindings, outcomes, k);
      forall y | y in now ensures GivenBefore(outcomes, k, y) {
        if !Gives(outcomes, k - 1, y) {
          assert GivenBefore(outcomes, k - 1, y);
        }
      }
    }
  }

  /** Each central id leads to the clone of its last mapped binding. */
  lemma {:induction false} CentralEntries(bindings: seq<Binding>, outcomes: seq<Outcome>, k: nat)
    requires k <= |bindings| && |bindings| == |outcomes|
    ensures var m := CentralToLocal(bindings, outcomes, k);
            && (forall i :: 0 <= i < k && outcomes[i].Mapped? ==> bindings[i].repoId in m)
    ensures forall x :: x in CentralToLocal(bindings, outcomes, k) ==>
              LinkedBefore(bindings, outcomes, k, x, CentralToLocal(bindings, outcomes, k)[x])
  {
    if k > 0 {
      CentralEntries(bindings, outcomes, k - 1);
      var before, now := CentralToLocal(bindings, outcomes, k - 1), CentralToLocal(bindings, outcomes, k);
      forall x | x in now ensures LinkedBefore(bindings, outcomes, k, x, now[x]) {
        if !Links(bindings, outcomes, k - 1, x, now[x]) {
          assert LinkedBefore(bindings, outcomes, k - 1, x, before[x]);
        }
      }
    }
  }

  /** Whether no central repository was mapped twice. */
  ghost predicate MappedOnce(bindings: seq<Binding>, outcomes: seq<Outcome>)
    requires |bindings| == |outcomes|
  {
    forall i, j :: 0 <= i < j < |bindings| && outcomes[i].Mapped? && outcomes[j].Mapped? ==>
      bindings[i].repoId != bindings[j].repoId
  }

  /** The two maps undo each other exactly when no central repository was mapped
      twice, so always for distinct bindings. */
  lemma MapsAreInverse(n: Normal, bindings: seq<Binding>, centrals: seq<Repo>, locals: seq<Repo>)
    ensures var all := Outcomes(n, bindings, centrals, locals, |bindings|);
            Inverse(CentralToLocal(bindings, all, |bindings|), LocalToCentral(bindings, all, |bindings|))
            <==> MappedOnce(bindings, all)
  {
    var all := Outcomes(n, bindings, centrals, locals, |bindings|);
    forall i, j | 0 <= i < j < |bindings| && all[i].Mapped? && all[j].Mapped? ensures all[i].local.id != all[j].local.id {
      CloneIsUsedOnce(n, bindings, centrals, locals, i, j);
    }
    LocalEntries(bindings, all, |bindings|);
    CentralEntries(bindings, all, |bindings|);
    InverseFromEntries(bindings, all, CentralToLocal(bindings, all, |bindings|), LocalToCentral(bindings, all, |bindings|));
  }

  lemma InverseFromEntries(bindings: seq<Binding>, all: seq<Outcome>, c: map<string, string>, l: map<string, string>)
    requires |bindings| == |all|
    requires forall i, j :: 0 <= i < j < |bindings| && all[i].Mapped? && all[j].Mapped? ==> all[i].local.id != all[j].local.id
    requires forall i :: 0 <= i < |bindings| && all[i].Mapped? ==>
               all[i].local.id in l && l[all[i].local.id] == bindings[i].repoId && bindings[i].repoId in c
    requires forall y :: y in l ==> GivenBefore(all, |bindings|, y)
    requires forall x :: x in c ==> LinkedBefore(bindings, all, |bindings|, x, c[x])
    ensures Inverse(c, l) <==> MappedOnce(bindings, all)
  {
    if MappedOnce(bindings, all) {
      forall y | y in l ensures l[y] in c && c[l[y]] == y {
        var i: nat :| i < |bindings| && Gives(all, i, y);
        var j: nat :| j < |bindings| && Links(bindings, all, j, l[y], c[l[y]]);
        assert i == j;
      }
    } else {
      var i, j :| 0 <= i < j < |bindings| && all[i].Mapped? && all[j].Mapped? && bindings[i].repoId == bindings[j].repoId;
      assert l[all[i].local.id] == l[all[j].local.id];
    }
  }

  ghost predicate DistinctBindings(bindings: seq<Binding>) {
    forall i, j :: 0 <= i < j < |bindings| ==> bindings[i].repoId != bindings[j].repoId
  }

  /** For distinct bindings a binding is mapped exactly when its outcome says so:
      with `NamesOf`, it is in exactly one of mapped, missing and ambiguous. */
  lemma MappedMeansMapped(n: Normal, bindings: seq<Binding>, centrals: seq<Repo>, locals: seq<Repo>, i: nat)
    requires DistinctBindings(bindings) && i < |bindings|
    ensures var all := Outcomes(n, bindings, centrals, locals, |bindings|);
            var m := CentralToLocal(bindings, all, |bindings|);
            && (bindings[i].repoId in m <==> all[i].Mapped?)
            && (all[i].Mapped? ==> m[bindings[i].repoId] == all[i].local.id)
  {
    CentralEntries(bindings, Outcomes(n, bindings, centrals, locals, |bindings|), |bindings|);
  }

  lemma {:induction false} EveryBindingIsCounted(bindings: seq<Binding>, outcomes: seq<Outcome>, k: nat)
    requires k <= |bindings| && |bindings| == |outcomes|
    requires DistinctBindings(bindings)
    ensures |CentralToLocal(bindings, outcomes, k)| + |NamesOf(bindings, outcomes, Missing, k)|
            + |NamesOf(bindings, outcomes, Ambiguous, k)| == k
  {
    if k > 0 {
      EveryBindingIsCounted(bindings, outcomes, k - 1);
      CentralEntries(bindings, outcomes, k - 1);
      assert bindings[k - 1].repoId !in CentralToLocal(bindings, outcomes, k - 1);
    }
  }
}
