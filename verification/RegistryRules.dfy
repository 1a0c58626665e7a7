/** The registry's rules in one place, each a condition on the event and the state alone, listed in
    the order in which a breach is reported; and the proof that the replay follows them. */
module RegistryRules {
  import opened Basics
  import opened AccessChain
  import opened RegistryModel
  import opened RegistryPayload
  import opened Registry
  import opened RegistryInvariant
  import opened RegistryTheorems

  /** A breach is reported before anything the later rules say. */
  function Rule(broken: bool, reason: Reason, later: Verdict): Verdict { if broken then Reject(reason) else later }

  // -------------------------------------------------------------------- policies

  /** A first policy stands alone; each later one names the one before it, raises the version, brings
      a new artifact, and pins the head and the state it was decided on. */
  ghost function PolicyRules(h: Hashes, st: State, p: Policy): Verdict {
    var first := st.policies == [];
    var latest := if first then p else st.policies[|st.policies| - 1].policy;
    var named := if p.predecessor.Some? then p.predecessor.value else Predecessor(0, 0, 0);
    Rule(exists q :: q in st.policies && q.policy.id == p.id, PolicyIdReused,
    Rule(first && p.predecessor.Some?, FirstPolicyHasPredecessor,
    Rule(!first && !(latest.version < p.version), VersionNotIncreasing,
    Rule(!first && !(p.predecessor.Some? && named.policy == latest.id), PredecessorNotLatest,
    Rule(!first && p.binding.sha == latest.binding.sha, PolicyArtifactUnchanged,
    Rule(!first && named.head != Head(st.accepted), PredecessorHeadMismatch,
    Rule(!first && named.state != h.state(RegistryDocument(st.policies, st.trials, st.bound)), PredecessorStateMismatch,
    Accept)))))))
  }

  lemma {:induction false} PoliciesFollow(h: Hashes, st: State, p: Policy)
    ensures PolicyVerdict(h, st, p) == PolicyRules(h, st, p)
  {
    hide FindPolicy;
    var k := FindPolicy(st.policies, p.id);
    if k < |st.policies| {
      assert st.policies[k] in st.policies;
    }
  }

  // ---------------------------------------------------------------- registrations

  ghost predicate OffAxis(values: Option<seq<Id>>, x: Id) { values.Some? && x !in values.value }

  /** A registration belongs to the latest policy while its family is open, and repeats the policy's
      cost terms. */
  ghost function AdmissionRules(st: State, id: Id, r: Registration, later: Verdict): Verdict {
    var known := exists q :: q in st.policies && q.policy.id == r.policy;
    var entry := if st.policies == [] then PolicyEntry(DUMMY, None) else st.policies[|st.policies| - 1];
    var p := entry.policy;
    Rule(exists t :: t in st.trials && t.id == id, TrialIdReused,
    Rule(!known, PolicyUnknown,
    Rule(r.policy != p.id, PolicyNotLatest,
    Rule(r.policyVersion != p.version, PolicyVersionMismatch,
    Rule(entry.frozen.Some?, FamilyFrozen,
    Rule(r.role != p.role, CostRoleMismatch,
    Rule(p.mode != SyntheticTestOnly, ProductionBlocked,
    Rule(p.costs != Some(r.costs), CostOrderMismatch,
    later))))))))
  }

  /** A grid trial sits in a cell of its policy's grid, the one cell of its structural id; which cost
      selects is fixed in advance exactly where costs are only reported. */
  ghost function GridRules(ts: seq<Trial>, p: Policy, r: Registration, later: Verdict): Verdict {
    var c, grid := CoordinateOf(r), r.gridClass == RegisteredGrid;
    Rule(grid && (OffAxis(p.axes.filter, c.filter) || OffAxis(p.axes.holding, c.holding)
                  || OffAxis(p.axes.lookback, c.lookback) || OffAxis(p.axes.rebalance, c.rebalance)), AxisOffGrid,
    Rule(p.role == ReportingOnly && r.selectionCost.None?, PrimaryCostMissing,
    Rule(p.role == SelectionEligible && r.selectionCost.Some?, PrimaryCostForbidden,
    Rule(grid && exists t :: t in ts && OtherCell(t.registration, r), IdCoordinateDisagree,
    later))))
  }

  /** Two grid trials of one policy that share the id or the cell and not both. */
  predicate OtherCell(q: Registration, r: Registration) {
    && q.policy == r.policy && q.gridClass == RegisteredGrid
    && ((q.structural == r.structural && CoordinateOf(q) != CoordinateOf(r))
        || (q.structural != r.structural && CoordinateOf(q) == CoordinateOf(r)))
  }

  const DUMMY := Policy(0, 0, ProductionUnresolved, Binding(0, 0, 0), Binding(0, 0, 0), Binding(0, 0, 0),
                        Axes(None, None, None, None), None, RoleUnregistered, None, None)

  /** A child names an existing parent of its own family and hypothesis, from the policy just
      before. */
  ghost function ParentRules(ts: seq<Trial>, p: Policy, r: Registration, later: Verdict): Verdict {
    var child := r.parent.Some?;
    var named := if child then r.parent.value else 0;
    Rule(p.predecessor.Some? && !child, ParentRequired,
    Rule(child && forall t :: t in ts ==> t.id != named, ParentUnknown,
    Rule(child && exists t :: t in ts && t.id == named && t.registration.family != r.family, ParentOtherFamily,
    Rule(child && exists t :: t in ts && t.id == named && t.registration.hypothesis != r.hypothesis,
         ParentOtherHypothesis,
    Rule(child && p.predecessor.Some?
         && exists t :: t in ts && t.id == named && t.registration.policy != p.predecessor.value.policy,
         ParentNotImmediate,
    Rule(child && exists t :: t in ts && t.id == named && t.registration.policyVersion >= r.policyVersion,
         ParentVersionNotEarlier,
    later))))))
  }

  /** Under a later policy a structural id keeps its cell, and descends from its latest namesake. */
  ghost function StructureRules(ts: seq<Trial>, p: Policy, r: Registration, later: Verdict): Verdict {
    Rule(p.predecessor.Some? && exists t :: t in ts && t.registration.structural == r.structural
                                            && CoordinateOf(t.registration) != CoordinateOf(r),
         StructuralCoordinateChanged,
    Rule(p.predecessor.Some? && exists i :: 0 <= i < |ts| && LastWith(ts, StructuralKey, r.structural, i)
                                            && r.parent != Some(ts[i].id),
         StructuralParentNotLatest,
    later))
  }

  /** Within its policy a registration is new in configuration and structural id; a configuration
      registered under an earlier policy descends from the latest trial that had it. */
  ghost function ConfigurationRules(ts: seq<Trial>, r: Registration, digest: Hash): Verdict {
    Rule(exists i :: 0 <= i < |ts| && SameConfiguration(ts[i], r, digest)
                     && forall j :: 0 <= j < i ==> !SameStructure(ts[j], r),
         ConfigurationRegistered,
    Rule(exists t :: t in ts && SameStructure(t, r), StructuralIdReused,
    Rule(exists i :: 0 <= i < |ts| && LastWith(ts, ConfigurationKey, digest, i) && r.parent != Some(ts[i].id),
         ConfigurationParentNotLatest,
    Accept)))
  }

  predicate SameConfiguration(t: Trial, r: Registration, digest: Hash) {
    t.registration.policy == r.policy && t.configuration == digest
  }

  predicate SameStructure(t: Trial, r: Registration) {
    t.registration.policy == r.policy && t.registration.structural == r.structural
  }

  /** The last trial that carries a key. */
  ghost predicate LastWith(ts: seq<Trial>, key: Trial -> int, value: int, i: nat)
    requires i < |ts|
  {
    key(ts[i]) == value && forall j :: i < j < |ts| ==> key(ts[j]) != value
  }

  lemma {:induction false} AdmissionFollows(h: Hashes, st: State, id: Id, r: Registration, later: Verdict)
    requires PolicyInv(st.policies)
    ensures AdmissionRules(st, id, r, later) ==
      if PolicyChecks(st, id, r) == Accept then later else PolicyChecks(st, id, r)
    ensures PolicyChecks(st, id, r) == Accept ==>
      && st.policies != [] && FindPolicy(st.policies, r.policy) == |st.policies| - 1
      && var p := st.policies[|st.policies| - 1].policy;
         ValidPolicy(p) && p.mode == SyntheticTestOnly
  {
    hide FindPolicy, FindTrial;
    var k, m := FindPolicy(st.policies, r.policy), FindTrial(st.trials, id);
    if m < |st.trials| {
      assert st.trials[m] in st.trials;
    }
    if k < |st.policies| {
      assert st.policies[k] in st.policies;
    }
    if st.policies != [] {
      assert ValidPolicy(st.policies[|st.policies| - 1].policy);
    }
  }

  lemma {:induction false} GridFollows(ts: seq<Trial>, p: Policy, r: Registration, later: Verdict)
    requires ValidPolicy(p) && p.mode == SyntheticTestOnly
    ensures GridRules(ts, p, r, later) == if GridChecks(ts, p, r) == Accept then later else GridChecks(ts, p, r)
  {
    hide ValidPolicy;
    SyntheticPolicy(p);
    assert forall t :: t in ts ==> (Disagrees(r, t.registration) <==> OtherCell(t.registration, r));
  }

  lemma {:induction false} SyntheticPolicy(p: Policy)
    requires ValidPolicy(p) && p.mode == SyntheticTestOnly
    ensures p.axes.filter.Some? && p.axes.holding.Some? && p.axes.lookback.Some? && p.axes.rebalance.Some?
    ensures p.costs.Some? && p.role != RoleUnregistered
  {}

  lemma {:induction false} ParentFollows(ts: seq<Trial>, p: Policy, r: Registration, later: Verdict)
    requires forall i, j :: 0 <= i < j < |ts| ==> ts[i].id != ts[j].id
    ensures ParentRules(ts, p, r, later) == if ParentChecks(ts, p, r) == Accept then later else ParentChecks(ts, p, r)
  {
    hide FindTrial;
    if r.parent.Some? {
      var k := FindTrial(ts, r.parent.value);
      if k < |ts| {
        assert ts[k] in ts;
        assert forall t :: t in ts && t.id == r.parent.value ==> t == ts[k];
      }
    }
  }

  lemma {:induction false} StructureFollows(ts: seq<Trial>, p: Policy, r: Registration, later: Verdict)
    ensures StructureRules(ts, p, r, later) ==
      if StructuralChecks(ts, p, r) == Accept then later else StructuralChecks(ts, p, r)
  {
    hide LatestStructural;
    var k := LatestStructural(ts, r.structural);
    if k >= 0 {
      assert LastWith(ts, StructuralKey, r.structural, k);
    }
    assert forall i :: 0 <= i < |ts| && LastWith(ts, StructuralKey, r.structural, i) ==> i == k;
  }

  lemma {:induction false} ConfigurationFollows(ts: seq<Trial>, r: Registration, digest: Hash)
    requires forall i :: 0 <= i < |ts| ==> Conflict(r, digest, ts[i]) != Some(CoordinateAliased)
    ensures ConfigurationRules(ts, r, digest) == ConfigurationChecks(ts, digest, r)
  {
    hide LatestConfiguration, FirstConflict;
    ConflictFollows(ts, r, digest);
    var k := LatestConfiguration(ts, digest);
    if k >= 0 {
      assert LastWith(ts, ConfigurationKey, digest, k);
    }
    assert forall i :: 0 <= i < |ts| && LastWith(ts, ConfigurationKey, digest, i) ==> i == k;
  }

  /** The first conflict in registration order: a known configuration, unless its structural id was
      met before. */
  lemma {:induction false} ConflictFollows(ts: seq<Trial>, r: Registration, digest: Hash)
    requires forall i :: 0 <= i < |ts| ==> Conflict(r, digest, ts[i]) != Some(CoordinateAliased)
    ensures FirstConflict(r, digest, ts) ==
      if exists i :: 0 <= i < |ts| && SameConfiguration(ts[i], r, digest)
                     && forall j :: 0 <= j < i ==> !SameStructure(ts[j], r)
      then Some(ConfigurationRegistered)
      else if exists t :: t in ts && SameStructure(t, r) then Some(StructuralIdReused) else None
  {
    hide FirstConflict;
    if forall i :: 0 <= i < |ts| ==> Conflict(r, digest, ts[i]).None? {
      assert forall i :: 0 <= i < |ts| ==> !SameConfiguration(ts[i], r, digest) && !SameStructure(ts[i], r);
    } else {
      var i := FirstConflicting(ts, r, digest);
      assert ts[i] in ts;
      assert forall j :: 0 <= j < i ==> !SameConfiguration(ts[j], r, digest) && !SameStructure(ts[j], r);
      if SameConfiguration(ts[i], r, digest) {
        assert forall j :: 0 <= j < i ==> !SameStructure(ts[j], r);
      } else {
        assert SameStructure(ts[i], r);
      }
    }
  }

  lemma {:induction false} FirstConflicting(ts: seq<Trial>, r: Registration, digest: Hash) returns (i: nat)
    requires exists k :: 0 <= k < |ts| && Conflict(r, digest, ts[k]).Some?
    ensures i < |ts| && Conflict(r, digest, ts[i]).Some? && FirstConflict(r, digest, ts) == Conflict(r, digest, ts[i])
    ensures forall j :: 0 <= j < i ==> Conflict(r, digest, ts[j]).None?
    decreases |ts|
  {
    hide Conflict;
    if Conflict(r, digest, ts[0]).Some? {
      i := 0;
    } else {
      var rest := ts[1..];
      var k :| 0 <= k < |ts| && Conflict(r, digest, ts[k]).Some?;
      assert rest[k - 1] == ts[k];
      var m := FirstConflicting(rest, r, digest);
      i := m + 1;
      forall j | 0 <= j < i
        ensures Conflict(r, digest, ts[j]).None?
      {
        assert j > 0 ==> ts[j] == rest[j - 1];
      }
    }
  }

  /** A registration is judged by admission, grid, parent, structure and configuration, in that
      order. */
  ghost function RegistrationRules(h: Hashes, st: State, id: Id, r: Registration): Verdict {
    var p := if st.policies == [] then DUMMY else st.policies[|st.policies| - 1].policy;
    AdmissionRules(st, id, r,
      GridRules(st.trials, p, r,
        ParentRules(st.trials, p, r,
          StructureRules(st.trials, p, r, ConfigurationRules(st.trials, r, h.configuration(ConfigurationOf(r)))))))
  }

  lemma {:induction false} RegistrationsFollow(h: Hashes, st: State, id: Id, r: Registration)
    requires PolicyInv(st.policies) && forall i, j :: 0 <= i < j < |st.trials| ==> st.trials[i].id != st.trials[j].id
    ensures RegisterVerdict(h, st, id, r) == RegistrationRules(h, st, id, r)
  {
    hide PolicyInv, FindPolicy, PolicyChecks, GridChecks, ParentChecks, StructuralChecks, ConfigurationChecks,
      ConfigurationOf,
      AdmissionRules, GridRules, ParentRules, StructureRules, ConfigurationRules, ValidPolicy;
    var p := if st.policies == [] then DUMMY else st.policies[|st.policies| - 1].policy;
    var digest := h.configuration(ConfigurationOf(r));
    var c := ConfigurationRules(st.trials, r, digest);
    var s := StructureRules(st.trials, p, r, c);
    var a := ParentRules(st.trials, p, r, s);
    AdmissionFollows(h, st, id, r, GridRules(st.trials, p, r, a));
    if PolicyChecks(st, id, r) == Accept {
      GridFollows(st.trials, p, r, a);
      ParentFollows(st.trials, p, r, s);
      StructureFollows(st.trials, p, r, c);
      if GridChecks(st.trials, p, r) == Accept {
        NoAlias(st.trials, p, r, digest);
        ConfigurationFollows(st.trials, r, digest);
      }
    }
  }

  lemma {:induction false} NoAlias(ts: seq<Trial>, p: Policy, r: Registration, digest: Hash)
    requires GridChecks(ts, p, r) == Accept
    ensures forall i :: 0 <= i < |ts| ==> Conflict(r, digest, ts[i]) != Some(CoordinateAliased)
  {
    hide OnGrid;
    assert forall i :: 0 <= i < |ts| ==> ts[i] in ts;
  }

  // ------------------------------------------------------------------ trial events

  /** A first start has no retry reason, a later one has, comes before any outcome, and takes a new
      run id. */
  ghost function StartRules(t: Trial, run: Id, reason: Option<Id>): Verdict {
    Rule(t.status == Registered && reason.Some?, InitialRunHasRetryReason,
    Rule(t.status == Running && reason.None?, RetryReasonMissing,
    Rule(t.status == Running && t.outcomes != [], RetryAfterOutcome,
    Rule(exists a :: a in t.attempts && a.run == run, RunIdReused,
    Accept))))
  }

  lemma {:induction false} StartsFollow(h: Hashes, st: State, t: Trial, run: Id, reason: Option<Id>)
    requires TrialOk(h, st.policies, t) && LifeOk(t) && !t.status.Closed?
    ensures StartVerdict(st, t, run, reason) == StartRules(t, run, reason)
  {
    hide FindPolicy, ValidRegistration, ConfigurationOf, ValidPolicy, FindPlan;
  }

  /** The event belongs to the run the trial is in. */
  predicate Current(t: Trial, a: AccessEvent) {
    a.body.request.trial == t.id && t.run == Some(a.body.request.run)
  }

  /** Frozen at registration: the registration event itself, and every data and universe artifact. */
  ghost predicate Frozen(t: Trial, x: AccessArtifact) {
    || x == AccessArtifact(REGISTRATION_ARTIFACT, t.hash)
    || exists f :: f in t.registration.artifacts && (f.role == Data || f.role == Universe)
                   && x == AccessArtifact(f.artifact, f.sha)
  }

  ghost predicate FrozenVintage(t: Trial, sha: Hash) {
    exists f :: f in t.registration.artifacts && f.role == Data && f.sha == sha
  }

  ghost predicate InWindow(t: Trial, a: AccessEvent) {
    exists w :: w in t.registration.windows && w.key == a.body.request.window
  }

  /** The event carries exactly what was frozen, of a frozen vintage. */
  ghost predicate OnFrozen(t: Trial, a: AccessEvent) {
    && (forall x :: x in a.body.request.artifacts <==> Frozen(t, x))
    && FrozenVintage(t, a.body.request.window.vintageSha)
  }

  predicate NamesRegistration(t: Trial, a: AccessEvent) {
    AccessArtifact(REGISTRATION_ARTIFACT, t.hash) in a.body.request.artifacts
  }

  /** A binding cites its own registration and contract, and brings the global chain on by events of
      the current run. */
  ghost function BindingRules(st: State, t: Trial, manifest: Binding, b: AccessBinding, later: Verdict): Verdict {
    var n := |st.chain|;
    var last := if b.chain == [] then 0 else b.chain[|b.chain| - 1].body.request.run;
    Rule(t.status != Running, AccessNotRunning,
    Rule(b.registration != t.hash, RegistrationHashMismatch,
    Rule(b.contract != manifest, ContractMismatch,
    Rule(t.run != Some(last), AccessRunMismatch,
    Rule(n > 0 && |b.chain| <= n, ChainNotExtended,
    Rule(n > 0 && !(st.chain <= b.chain), ChainForked,
    Rule(exists i :: n <= i < |b.chain| && !Current(t, b.chain[i]), SuffixForeign,
    later)))))))
  }

  /** Every event of the run lies between start and binding, in a window and on artifacts frozen at
      registration; the head is new. */
  ghost function RunRules(st: State, t: Trial, began: Time, at: Time, b: AccessBinding): Verdict {
    Rule(Early(t, began, b.chain), AccessBeforeStart,
    Rule(Late(t, at, b.chain), AccessAfterBinding,
    Rule(b.head in st.bound, AccessAlreadyBound,
    Rule(Stray(t, b.chain), WindowNotRegistered,
    Rule(Unnamed(t, b.chain), RegistrationArtifactMissing,
    Rule(Unfrozen(t, b.chain), ArtifactsNotFrozen,
    Accept))))))
  }

  ghost predicate Early(t: Trial, began: Time, chain: seq<AccessEvent>) {
    exists a :: a in chain && Current(t, a) && (a.body.at < t.at || a.body.at < began)
  }

  ghost predicate Late(t: Trial, at: Time, chain: seq<AccessEvent>) {
    exists a :: a in chain && Current(t, a) && at < a.body.at
  }

  ghost predicate Stray(t: Trial, chain: seq<AccessEvent>) {
    exists a :: a in chain && Current(t, a) && !InWindow(t, a)
  }

  ghost predicate Unnamed(t: Trial, chain: seq<AccessEvent>) {
    exists a :: a in chain && Current(t, a) && !NamesRegistration(t, a)
  }

  ghost predicate Unfrozen(t: Trial, chain: seq<AccessEvent>) {
    exists a :: a in chain && Current(t, a) && !OnFrozen(t, a)
  }

  lemma {:induction false} TimesFollow(t: Trial, began: Time, at: Time, chain: seq<AccessEvent>)
    ensures (exists a :: a in chain && OfRun(a, t.id, t.run) && a.body.at < Max(t.at, began))
              <==> Early(t, began, chain)
    ensures (exists a :: a in chain && OfRun(a, t.id, t.run) && a.body.at > at) <==> Late(t, at, chain)
  {
    assert forall a :: a in chain ==> (OfRun(a, t.id, t.run) <==> Current(t, a));
  }

  lemma {:induction false} WindowsFollow(t: Trial, chain: seq<AccessEvent>)
    requires chain != [] && Current(t, chain[|chain| - 1])
    ensures var keys := RegisteredKeys(t.registration);
      (|| chain[|chain| - 1].body.request.window !in keys
       || exists a :: a in chain && OfRun(a, t.id, t.run) && a.body.request.window !in keys) <==> Stray(t, chain)
  {
    forall a | a in chain
      ensures OfRun(a, t.id, t.run) == Current(t, a)
      ensures (a.body.request.window in RegisteredKeys(t.registration)) == InWindow(t, a)
    {
    }
    hide OfRun, Current, RegisteredKeys, InWindow;
    assert chain[|chain| - 1] in chain;
  }

  lemma {:induction false} ArtifactsFollow(t: Trial, chain: seq<AccessEvent>)
    ensures (exists a :: a in chain && OfRun(a, t.id, t.run)
                         && AccessArtifact(REGISTRATION_ARTIFACT, t.hash) !in a.body.request.artifacts)
              <==> Unnamed(t, chain)
    ensures (exists a :: a in chain && OfRun(a, t.id, t.run) && !MatchesFrozen(t, a)) <==> Unfrozen(t, chain)
  {
    forall a | a in chain
      ensures OfRun(a, t.id, t.run) == Current(t, a) && MatchesFrozen(t, a) == OnFrozen(t, a)
    {
      FrozenFollows(t, a);
    }
    hide OfRun, Current, MatchesFrozen, OnFrozen;
  }

  lemma {:induction false} RunFollows(st: State, t: Trial, at: Time, b: AccessBinding)
    requires t.attempts != [] && b.chain != [] && b.chain[|b.chain| - 1].hash == b.head
    requires Current(t, b.chain[|b.chain| - 1])
    ensures RunChecks(st, t, at, b.chain) == RunRules(st, t, t.attempts[|t.attempts| - 1].startedAt, at, b)
  {
    hide OfRun, Current, MatchesFrozen, RegisteredKeys, Early, Late, Stray, Unnamed, Unfrozen;
    TimesFollow(t, t.attempts[|t.attempts| - 1].startedAt, at, b.chain);
    WindowsFollow(t, b.chain);
    ArtifactsFollow(t, b.chain);
    hide Max;
  }

  lemma {:induction false} FrozenFollows(t: Trial, a: AccessEvent)
    ensures MatchesFrozen(t, a) == OnFrozen(t, a)
  {
    forall x
      ensures x in FrozenArtifacts(t) <==> Frozen(t, x)
      ensures x in Elements(a.body.request.artifacts) <==> x in a.body.request.artifacts
    {
    }
    assert a.body.request.window.vintageSha in FrozenData(t) <==> FrozenVintage(t, a.body.request.window.vintageSha);
    hide Frozen, FrozenArtifacts, FrozenVintage, FrozenData;
    if forall x :: x in a.body.request.artifacts <==> Frozen(t, x) {
      assert Elements(a.body.request.artifacts) == FrozenArtifacts(t);
    }
  }

  lemma {:induction false} BindingFollows(h: Hashes, st: State, t: Trial, at: Time, b: AccessBinding)
    requires TrialOk(h, st.policies, t) && LifeOk(t) && ValidChain(h.access, b.chain)
    requires b.chain != [] && b.chain[|b.chain| - 1].hash == b.head && b.chain[|b.chain| - 1].body.request.trial == t.id
    ensures var manifest := st.policies[Generation(st.policies, t)].policy.manifest;
      var began := if t.attempts == [] then 0 else t.attempts[|t.attempts| - 1].startedAt;
      AccessVerdict(st, t, at, b) == BindingRules(st, t, manifest, b, RunRules(st, t, began, at, b))
  {
    hide FindPolicy, FirstOfRun, ValidRegistration, ConfigurationOf, ValidPolicy, FindPlan, ValidChain, RunChecks,
      RunRules, OnGrid;
    if t.status == Running && t.run == Some(b.chain[|b.chain| - 1].body.request.run) {
      ChainSound(h, st, t, b.chain);
      RunFollows(st, t, at, b);
    }
    assert forall i :: 0 <= i < |b.chain| ==> (OfRun(b.chain[i], t.id, t.run) <==> Current(t, b.chain[i]));
  }

  /** An outcome cites successes of the current run, after everything it rests on, for a plan of the
      registration. */
  ghost function CitationRules(t: Trial, all: map<Hash, AccessEvent>, began: Time, at: Time, o: Outcome,
                               later: Verdict): Verdict
  {
    Rule(o.cited == {} || exists x :: x in o.cited && !(x in all && t.run == Some(all[x].body.request.run)),
         CitationNotCurrent,
    Rule(at < t.at || at < began || exists x :: x in all && at < all[x].body.at, OutcomeTooEarly,
    Rule(forall p :: p in t.registration.plans ==> p.id != o.plan, PlanUnknown,
    later)))
  }

  /** It covers exactly the windows of its plan, with no other window exposed, and reports what the
      plan announced, once. */
  ghost function ReportRules(t: Trial, all: map<Hash, AccessEvent>, o: Outcome): Verdict {
    var plans := set p | p in t.registration.plans && p.id == o.plan;
    Rule(exists p :: p in plans && !ExactlyIn(t, all, o.cited, p.windows), CitedWindowsMismatch,
    Rule(exists p :: p in plans && !ExactlyIn(t, all, all.Keys, p.windows), ExposedWindowsMismatch,
    Rule(exists p :: p in plans && p.artifact != o.binding.artifact, OutcomeArtifactMismatch,
    Rule(exists p :: p in plans && p.measure != o.measure, ReportMismatch,
    Rule(exists q :: q in t.outcomes && q.plan == o.plan, OutcomeDuplicated,
    Accept)))))
  }

  /** The accesses filed under `hashes` fall in exactly these windows. */
  ghost predicate ExactlyIn(t: Trial, all: map<Hash, AccessEvent>, hashes: set<Hash>, windows: seq<Id>) {
    forall w :: w in windows <==>
      exists x :: x in hashes && x in all && Window(w, all[x].body.request.window) in t.registration.windows
  }

  lemma {:induction false} ExactlyFollows(t: Trial, all: map<Hash, AccessEvent>, hashes: set<Hash>,
                                          accesses: set<AccessEvent>,
                                          windows: seq<Id>)
    requires hashes <= all.Keys && accesses == set x | x in hashes :: all[x]
    ensures WindowIdsOf(t.registration, accesses) == Elements(windows) <==> ExactlyIn(t, all, hashes, windows)
  {
    var ids := WindowIdsOf(t.registration, accesses);
    forall w
      ensures w in ids <==>
        exists x :: x in hashes && x in all && Window(w, all[x].body.request.window) in t.registration.windows
    {
      if w in ids {
        var a, v :| a in accesses && v in t.registration.windows && v.key == a.body.request.window && v.id == w;
        var x :| x in hashes && all[x] == a;
        assert v == Window(w, all[x].body.request.window);
      }
      if x :| x in hashes && x in all && Window(w, all[x].body.request.window) in t.registration.windows {
        assert all[x] in accesses;
      }
    }
    hide WindowIdsOf;
    if ExactlyIn(t, all, hashes, windows) {
      forall w
        ensures w in ids <==> w in Elements(windows)
      {
      }
    }
    if ids == Elements(windows) {
      forall w
        ensures w in windows <==> w in ids
      {
        assert w in windows <==> w in Elements(windows);
      }
    }
  }

  lemma {:induction false} ThePlan(r: Registration, id: Id, k: nat)
    requires ValidRegistration(r) && k < |r.plans| && r.plans[k].id == id
    ensures (set p | p in r.plans && p.id == id) == {r.plans[k]}
  {
    hide ValidWindows, ValidArtifacts;
    assert r.plans[k] in r.plans;
    forall p | p in r.plans && p.id == id
      ensures p == r.plans[k]
    {
      var j :| 0 <= j < |r.plans| && r.plans[j] == p;
    }
  }

  /** The report rules for the one plan the outcome names. */
  ghost function PlanRules(t: Trial, all: map<Hash, AccessEvent>, o: Outcome, p: Plan): Verdict {
    Rule(!ExactlyIn(t, all, o.cited, p.windows), CitedWindowsMismatch,
    Rule(!ExactlyIn(t, all, all.Keys, p.windows), ExposedWindowsMismatch,
    Rule(p.artifact != o.binding.artifact, OutcomeArtifactMismatch,
    Rule(p.measure != o.measure, ReportMismatch,
    Rule(exists q :: q in t.outcomes && q.plan == o.plan, OutcomeDuplicated,
    Accept)))))
  }

  lemma {:induction false} OnePlan(t: Trial, all: map<Hash, AccessEvent>, o: Outcome, p: Plan)
    requires (set q | q in t.registration.plans && q.id == o.plan) == {p}
    ensures ReportRules(t, all, o) == PlanRules(t, all, o, p)
  {
    hide ExactlyIn;
    var plans := set q | q in t.registration.plans && q.id == o.plan;
    assert p in plans && forall q :: q in plans ==> q == p;
  }

  lemma {:induction false} PlanFollows(t: Trial, o: Outcome, plan: Plan, all: map<Hash, AccessEvent>)
    requires o.cited <= all.Keys
    requires forall x :: x in all ==> all[x].body.request.window in RegisteredKeys(t.registration)
    requires forall q :: q in t.outcomes && q.plan != o.plan ==> q.binding.artifact != plan.artifact
    ensures PlanVerdict(t, o, plan, all) == PlanRules(t, all, o, plan)
  {
    hide WindowIdsOf, ExactlyIn, RegisteredKeys;
    ExactlyFollows(t, all, o.cited, set x | x in o.cited :: all[x], plan.windows);
    AllSelected(all);
    ExactlyFollows(t, all, all.Keys, all.Values, plan.windows);
  }

  lemma {:induction false} OtherArtifacts(t: Trial, o: Outcome, k: nat)
    requires LifeOk(t) && ValidRegistration(t.registration)
    requires k < |t.registration.plans| && o.plan == t.registration.plans[k].id
    ensures forall q :: q in t.outcomes && q.plan != o.plan ==> q.binding.artifact != t.registration.plans[k].artifact
  {
    hide FindPlan, ValidWindows, ValidArtifacts;
    forall q | q in t.outcomes && q.plan != o.plan
      ensures q.binding.artifact != t.registration.plans[k].artifact
    {
      var i :| 0 <= i < |t.outcomes| && t.outcomes[i] == q;
      assert Planned(t.registration, t.outcomes[i]);
    }
  }

  lemma {:induction false} ReportsFollow(t: Trial, o: Outcome, k: nat, all: map<Hash, AccessEvent>)
    requires LifeOk(t) && ValidRegistration(t.registration) && o.cited <= all.Keys
    requires k < |t.registration.plans| && o.plan == t.registration.plans[k].id
    requires forall x :: x in all ==> all[x].body.request.window in RegisteredKeys(t.registration)
    ensures PlanVerdict(t, o, t.registration.plans[k], all) == ReportRules(t, all, o)
  {
    hide LifeOk, ValidRegistration, PlanVerdict, PlanRules, ReportRules, RegisteredKeys;
    ThePlan(t.registration, o.plan, k);
    OtherArtifacts(t, o, k);
    PlanFollows(t, o, t.registration.plans[k], all);
    OnePlan(t, all, o, t.registration.plans[k]);
  }

  lemma {:induction false} AllSelected(all: map<Hash, AccessEvent>)
    ensures all.Values == set x | x in all.Keys :: all[x]
  {
    forall a | a in all.Values
      ensures a in set x | x in all.Keys :: all[x]
    {
      var x := KeyWith(all, a);
      assert x in all.Keys;
    }
  }

  lemma {:induction false} KeyWith<K, V>(m: map<K, V>, v: V) returns (k: K)
    requires v in m.Values
    ensures k in m && m[k] == v
  {
    k :| k in m && m[k] == v;
  }

  /** The verdict on an outcome up to its plan. */
  lemma {:induction false} CitationsFollow(t: Trial, at: Time, o: Outcome, all: map<Hash, AccessEvent>, later: Verdict)
    requires all == Successes(Concat(t.bindings), t.id) && t.attempts != []
    requires var k := FindPlan(t.registration.plans, o.plan);
      k < |t.registration.plans| && o.cited <= all.Keys ==> PlanVerdict(t, o, t.registration.plans[k], all) == later
    ensures OutcomeVerdict(t, at, o) == CitationRules(t, all, t.attempts[|t.attempts| - 1].startedAt, at, o, later)
  {
    hide Successes, Concat, PlanVerdict, FindPlan;
    CurrentFollows(t, all, o);
    var k := FindPlan(t.registration.plans, o.plan);
    if k < |t.registration.plans| {
      assert t.registration.plans[k] in t.registration.plans;
    }
  }

  lemma {:induction false} OutcomesFollow(h: Hashes, t: Trial, at: Time, o: Outcome)
    requires LifeOk(t) && ValidRegistration(t.registration) && t.status == Running
    requires var all := Successes(Concat(t.bindings), t.id);
      forall x :: x in all ==> all[x].body.request.window in RegisteredKeys(t.registration)
    ensures t.attempts != []
    ensures var all := Successes(Concat(t.bindings), t.id);
      OutcomeVerdict(t, at, o) ==
        CitationRules(t, all, t.attempts[|t.attempts| - 1].startedAt, at, o, ReportRules(t, all, o))
  {
    assert t.attempts != [];
    hide LifeOk, Successes, Concat, ValidRegistration, RegisteredKeys, PlanVerdict, FindPlan, ReportRules,
      OutcomeVerdict,
      CitationRules;
    var all := Successes(Concat(t.bindings), t.id);
    var k := FindPlan(t.registration.plans, o.plan);
    if k < |t.registration.plans| && o.cited <= all.Keys {
      ReportsFollow(t, o, k, all);
    }
    CitationsFollow(t, at, o, all, ReportRules(t, all, o));
  }

  lemma {:induction false} CurrentFollows(t: Trial, all: map<Hash, AccessEvent>, o: Outcome)
    ensures var current := set x | x in all && Some(all[x].body.request.run) == t.run;
      (!(o.cited != {} && o.cited <= current) <==>
         o.cited == {} || exists x :: x in o.cited && !(x in all && t.run == Some(all[x].body.request.run)))
      && (o.cited <= current ==> o.cited <= all.Keys && (o.cited != {} ==> all != map[]))
  {
    var current := set x | x in all && Some(all[x].body.request.run) == t.run;
    if o.cited != {} && o.cited <= current {
      var x: Hash := Member(o.cited);
      assert x in all;
    }
    if !(o.cited <= current) {
      var x: Hash := Outsider(o.cited, current);
      assert !(x in all && t.run == Some(all[x].body.request.run));
    }
  }

  lemma {:induction false} Outsider<T>(a: set<T>, b: set<T>) returns (x: T)
    requires !(a <= b)
    ensures x in a && x !in b
  {
    x :| x in a && x !in b;
  }

  lemma {:induction false} Member<T>(s: set<T>) returns (x: T)
    requires s != {}
    ensures x in s
  {
    x :| x in s;
  }

  predicate Announced(t: Trial, x: Id) { exists p :: p in t.registration.plans && p.id == x }
  predicate Reported(t: Trial, x: Id) { exists o :: o in t.outcomes && o.plan == x }

  /** A trial is completed only while it runs and with exactly its planned outcomes reported; it can
      be given up at any time. */
  ghost function EndRules(t: Trial, terminal: Terminal): Verdict {
    Rule(terminal == Completed && !(t.status == Running && forall x :: Announced(t, x) <==> Reported(t, x)), Incomplete,
    Accept)
  }

  lemma {:induction false} EndsFollow(t: Trial, terminal: Terminal)
    ensures EndVerdict(t, terminal) == EndRules(t, terminal)
  {
    forall x
      ensures x in PlannedIds(t) <==> Announced(t, x)
      ensures x in ObservedIds(t) <==> Reported(t, x)
    {
    }
    hide Announced, Reported, PlannedIds, ObservedIds;
    if forall x :: Announced(t, x) <==> Reported(t, x) {
      assert ObservedIds(t) == PlannedIds(t);
    }
  }

  // ---------------------------------------------------------------------- events

  /** An event of a known, open trial, by its kind. */
  ghost function ActionRules(st: State, t: Trial, b: EventBody): Verdict {
    var began := if t.attempts == [] then 0 else t.attempts[|t.attempts| - 1].startedAt;
    var g := Generation(st.policies, t);
    var manifest := if g < |st.policies| then st.policies[g].policy.manifest else Binding(0, 0, 0);
    match b.kind
    case TrialStarted(_, run, reason) => StartRules(t, run, reason)
    case SampleAccessBound(_, access) => BindingRules(st, t, manifest, access, RunRules(st, t, began, b.at, access))
    case OutcomeRecorded(_, o) =>
      var all := Successes(Concat(t.bindings), t.id);
      Rule(t.status != Running, OutcomeNotRunning, CitationRules(t, all, began, b.at, o, ReportRules(t, all, o)))
    case TrialEnded(_, terminal, _) => EndRules(t, terminal)
    case _ => Accept
  }

  ghost function TrialRules(st: State, b: EventBody): Verdict
    requires !b.kind.PolicyRegistered? && !b.kind.TrialRegistered?
  {
    Rule(forall t :: t in st.trials ==> t.id != b.kind.trial, TrialUnknown,
    Rule(exists t :: t in st.trials && t.id == b.kind.trial && t.status.Closed?, TrialClosed,
    var k := FindTrial(st.trials, b.kind.trial);
    if k < |st.trials| then ActionRules(st, st.trials[k], b) else Accept))
  }

  lemma {:induction false} ActionsFollow(h: Hashes, st: State, b: EventBody, k: nat)
    requires Inv(h, st) && ValidKind(h, b.kind) && !b.kind.PolicyRegistered? && !b.kind.TrialRegistered?
    requires k == FindTrial(st.trials, b.kind.trial) < |st.trials| && !st.trials[k].status.Closed?
    ensures TrialVerdict(h, st, b) == ActionRules(st, st.trials[k], b)
  {
    hide FindTrial, FindPolicy, StartVerdict, AccessVerdict, OutcomeVerdict, EndVerdict, LifeOk, TrialOk, LogInv,
      LineageInv,
      AccessInv, ValidChain, PolicyInv, StartRules, BindingRules, RunRules, CitationRules, ReportRules, EndRules,
      Successes,
      Concat, RegisteredKeys, ValidRegistration;
    var t := st.trials[k];
    match b.kind
    case TrialStarted(_, run, reason) => StartsFollow(h, st, t, run, reason);
    case SampleAccessBound(_, access) =>
      KnownGeneration(h, st, t);
      BindingFollows(h, st, t, b.at, access);
    case OutcomeRecorded(_, o) =>
      if t.status == Running {
        RunningFacts(h, st, k);
        forall x | x in Successes(Concat(t.bindings), t.id) { SuccessWindows(st, k, x); }
        OutcomesFollow(h, t, b.at, o);
      }
    case TrialEnded(_, terminal, _) => EndsFollow(t, terminal);
  }

  lemma {:induction false} KnownGeneration(h: Hashes, st: State, t: Trial)
    requires TrialOk(h, st.policies, t)
    ensures Generation(st.policies, t) < |st.policies|
  {
    hide FindPolicy, ValidRegistration, ConfigurationOf, ValidPolicy, OnGrid;
  }

  lemma {:induction false} TrialsFollow(h: Hashes, st: State, b: EventBody)
    requires Inv(h, st) && ValidKind(h, b.kind) && !b.kind.PolicyRegistered? && !b.kind.TrialRegistered?
    ensures TrialVerdict(h, st, b) == TrialRules(st, b)
  {
    hide Inv, FindTrial, ActionRules, StartVerdict, AccessVerdict, OutcomeVerdict, EndVerdict, ValidKind;
    TrialIdsUnique(h, st);
    var k := FindTrial(st.trials, b.kind.trial);
    if k < |st.trials| {
      assert st.trials[k] in st.trials;
      assert forall t :: t in st.trials && t.id == b.kind.trial ==> t == st.trials[k];
      if !st.trials[k].status.Closed? {
        ActionsFollow(h, st, b, k);
      }
    }
  }

  lemma {:induction false} TrialIdsUnique(h: Hashes, st: State)
    requires Inv(h, st)
    ensures PolicyInv(st.policies)
    ensures forall i, j :: 0 <= i < j < |st.trials| ==> st.trials[i].id != st.trials[j].id
  {
    hide LogInv, PolicyInv, LineageInv, AccessInv, LifeOk, TrialOk, FindPolicy;
  }

  ghost function KindRules(h: Hashes, st: State, b: EventBody): Verdict {
    match b.kind
    case PolicyRegistered(p) => PolicyRules(h, st, p)
    case TrialRegistered(id, r) => RegistrationRules(h, st, id, r)
    case _ => TrialRules(st, b)
  }

  /** All the rules: a well-formed event, known before or under a new id, next in number, on top of
      the head, and acceptable for its kind. */
  ghost function Rules(h: Hashes, st: State, e: Event): Verdict {
    Rule(!WellFormed(h, e), Malformed,
    if e in st.accepted then Accept
    else
      Rule(exists x :: x in st.accepted && x.body.id == e.body.id, EventIdReused,
      Rule(e.body.sequence != |st.accepted| + 1, SequenceGap,
      Rule(e.body.previous != Head(st.accepted), PreviousHashMismatch,
      KindRules(h, st, e.body)))))
  }

  /** Against the state of any accepted log the replay decides every event by the rules, and reports
      the first that is broken. */
  lemma {:induction false} JudgeFollowsTheRules(h: Hashes, st: State, e: Event)
    requires Inv(h, st)
    ensures Judge(h, st, e) == Rules(h, st, e)
  {
    hide Inv, ValidKind, KindRules, KindVerdict, PolicyInv, Head;
    SeenFollows(h, st, e);
    EventMeans(h, e);
    hide WellFormed;
    if ValidEvent(h, e) {
      KindsFollow(h, st, e.body);
    }
  }

  lemma {:induction false} KindsFollow(h: Hashes, st: State, b: EventBody)
    requires Inv(h, st) && ValidKind(h, b.kind)
    ensures KindVerdict(h, st, b) == KindRules(h, st, b)
  {
    hide Inv, ValidKind, PolicyInv, PolicyVerdict, RegisterVerdict, TrialVerdict, PolicyRules, RegistrationRules,
      TrialRules;
    TrialIdsUnique(h, st);
    match b.kind
    case PolicyRegistered(p) => PoliciesFollow(h, st, p);
    case TrialRegistered(id, r) => RegistrationsFollow(h, st, id, r);
    case _ => TrialsFollow(h, st, b);
  }

  lemma {:induction false} SeenFollows(h: Hashes, st: State, e: Event)
    requires Inv(h, st)
    ensures e in st.accepted <==> Repeat(st, e)
    ensures e.body.id in st.seen <==> exists x :: x in st.accepted && x.body.id == e.body.id
  {
    hide PolicyInv, TrialInv, LineageInv, AccessInv, LifeOk, ValidEvent;
  }

  /** So an accepted log grows by exactly the events the rules allow, and every other event is refused
      with the first rule it breaks. */
  lemma {:induction false} ReplayFollowsTheRules(h: Hashes, log: seq<Event>, st: State, e: Event)
    requires Replay(h, log) == Loaded(st)
    ensures Replay(h, log + [e]) == match Rules(h, st, e)
      case Accept => Loaded(Effect(h, st, e))
      case Reject(reason) => Refused(reason)
      case Crash => Crashed
    ensures Rules(h, st, e) != Crash
  {
    hide Inv, Judge, Effect, Rules;
    ReplayInv(h, log);
    JudgeFollowsTheRules(h, st, e);
    JudgeSound(h, st, e);
    ReplayConcat(h, EMPTY, log, [e]);
    assert [e][1..] == [];
  }
}
