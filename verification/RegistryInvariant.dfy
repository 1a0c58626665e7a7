/** What every accepted log keeps true of the replayed state. */
module RegistryInvariant {
  import opened Basics
  import opened AccessChain
  import opened RegistryModel
  import opened Registry

  // ------------------------------------------------------------- definitions

  /** The head of the log before its `i`-th event. */
  function HeadBefore(accepted: seq<Event>, i: nat): Hash
    requires i <= |accepted|
  {
    if i == 0 then GENESIS else accepted[i - 1].hash
  }

  ghost predicate LogEntries(h: Hashes, accepted: seq<Event>, seen: map<Id, Event>) {
    forall i :: 0 <= i < |accepted| ==>
      && ValidEvent(h, accepted[i])
      && accepted[i].body.sequence == i + 1
      && accepted[i].body.previous == HeadBefore(accepted, i)
      && accepted[i].body.id in seen && seen[accepted[i].body.id] == accepted[i]
  }

  ghost predicate SeenAreLogged(accepted: seq<Event>, seen: map<Id, Event>) {
    forall id :: id in seen ==> seen[id] in accepted && seen[id].body.id == id
  }

  ghost predicate LogInv(h: Hashes, st: State) {
    LogEntries(h, st.accepted, st.seen) && SeenAreLogged(st.accepted, st.seen)
  }

  ghost predicate PolicyInv(ps: seq<PolicyEntry>) {
    && (forall k :: 0 <= k < |ps| ==>
          && ValidPolicy(ps[k].policy)
          && (k == 0 <==> ps[k].policy.predecessor.None?)
          && (k > 0 ==> ps[k].policy.predecessor.value.policy == ps[k - 1].policy.id))
    && (forall j, k :: 0 <= j < k < |ps| ==>
          ps[j].policy.id != ps[k].policy.id && ps[j].policy.version < ps[k].policy.version)
  }

  /** How far along the policy sequence a trial was registered. */
  function Generation(ps: seq<PolicyEntry>, t: Trial): nat { FindPolicy(ps, t.registration.policy) }

  /** What registration fixes about a trial and its policy. */
  ghost predicate TrialOk(h: Hashes, ps: seq<PolicyEntry>, t: Trial) {
    && ValidRegistration(t.registration)
    && t.configuration == h.configuration(ConfigurationOf(t.registration))
    && Generation(ps, t) < |ps|
    && var p := ps[Generation(ps, t)].policy;
       && ValidPolicy(p)
       && p.mode == SyntheticTestOnly
       && t.registration.policyVersion == p.version
       && t.registration.role == p.role
       && t.registration.costs == p.costs.value
       && (p.role == ReportingOnly <==> t.registration.selectionCost.Some?)
       && (t.registration.gridClass == RegisteredGrid ==> OnGrid(p, CoordinateOf(t.registration)))
  }

  ghost predicate TrialInv(h: Hashes, ps: seq<PolicyEntry>, ts: seq<Trial>, limit: int) {
    && (forall i :: 0 <= i < |ts| ==> Generation(ps, ts[i]) < |ps| && TrialOk(h, ps, ts[i]) && ts[i].sequence <= limit)
    && (forall i, j :: 0 <= i < j < |ts| ==>
          && ts[i].id != ts[j].id
          && ts[i].sequence < ts[j].sequence
          && Generation(ps, ts[i]) <= Generation(ps, ts[j]))
  }

  /** The parent of a trial lies exactly one policy earlier, in the same family. */
  ghost predicate ParentOk(ps: seq<PolicyEntry>, ts: seq<Trial>, i: nat)
    requires i < |ts|
  {
    var r := ts[i].registration;
    && (Generation(ps, ts[i]) == 0 <==> r.parent.None?)
    && (r.parent.Some? ==>
          var k := FindTrial(ts, r.parent.value);
          && k < i
          && Generation(ps, ts[k]) + 1 == Generation(ps, ts[i])
          && ts[k].registration.family == r.family
          && ts[k].registration.hypothesis == r.hypothesis)
  }

  /** Trials with equal keys: one per policy, each the parent of the next. */
  ghost predicate KeyLineage(ts: seq<Trial>, key: Trial -> int) {
    && (forall i, j :: 0 <= i < j < |ts| && key(ts[i]) == key(ts[j]) ==>
          ts[i].registration.policy != ts[j].registration.policy)
    && (forall i, j :: 0 <= i < j < |ts| && key(ts[i]) == key(ts[j])
                       && (forall k :: i < k < j ==> key(ts[k]) != key(ts[j])) ==>
          ts[j].registration.parent == Some(ts[i].id))
  }

  ghost predicate LineageInv(ps: seq<PolicyEntry>, ts: seq<Trial>) {
    && (forall i :: 0 <= i < |ts| ==> ParentOk(ps, ts, i))
    && KeyLineage(ts, ConfigurationKey)
    && KeyLineage(ts, StructuralKey)
    && (forall i, j :: 0 <= i < j < |ts| && StructuralKey(ts[i]) == StructuralKey(ts[j]) ==>
          CoordinateOf(ts[i].registration) == CoordinateOf(ts[j].registration))
    && (forall i, j :: 0 <= i < j < |ts| && ts[i].registration.policy == ts[j].registration.policy
                       && ts[i].registration.gridClass == ts[j].registration.gridClass == RegisteredGrid ==>
          CoordinateOf(ts[i].registration) != CoordinateOf(ts[j].registration))
  }

  function ConfigurationKey(t: Trial): int { t.configuration }
  function StructuralKey(t: Trial): int { t.registration.structural }

  /** A trial's own life: runs, outcomes and completion. */
  ghost predicate LifeOk(t: Trial) {
    && (t.status == Registered ==> t.attempts == [] && t.outcomes == [] && t.bindings == [])
    && (t.status == Running ==> t.attempts != [] && t.run == Some(t.attempts[|t.attempts| - 1].run))
    && (t.status == Closed(Completed) ==> ObservedIds(t) == PlannedIds(t))
    && (forall i, j :: 0 <= i < j < |t.attempts| ==> t.attempts[i].run != t.attempts[j].run)
    && (forall i :: 0 <= i < |t.outcomes| ==> Planned(t.registration, t.outcomes[i]))
    && (forall i, j :: 0 <= i < j < |t.outcomes| ==> t.outcomes[i].plan != t.outcomes[j].plan)
  }

  /** The outcome reports what its frozen plan announced. */
  ghost predicate Planned(r: Registration, o: Outcome) {
    var k := FindPlan(r.plans, o.plan);
    k < |r.plans| && o.binding.artifact == r.plans[k].artifact && o.measure == r.plans[k].measure
  }

  /** The access names a registered trial, one of its windows and its frozen artifacts. */
  ghost predicate AccessOk(ts: seq<Trial>, a: AccessEvent) {
    var k := FindTrial(ts, a.body.request.trial);
    && k < |ts|
    && a.body.request.window in RegisteredKeys(ts[k].registration)
    && MatchesFrozen(ts[k], a)
  }

  /** The windows the outcome's plan requires. */
  function PlanWindows(r: Registration, o: Outcome): set<Id> {
    var k := FindPlan(r.plans, o.plan);
    if k < |r.plans| then Elements(r.plans[k].windows) else {}
  }

  /** The access is a success of the trial's current run, in the registered window `w`. */
  ghost predicate Evidence(t: Trial, a: AccessEvent, w: Id) {
    && a.body.kind == Success && OfRun(a, t.id, t.run)
    && Window(w, a.body.request.window) in t.registration.windows
  }

  ghost predicate Cites(chain: seq<AccessEvent>, t: Trial, o: Outcome, x: Hash) {
    exists i, w :: 0 <= i < |chain| && chain[i].hash == x && w in PlanWindows(t.registration, o)
      && Evidence(t, chain[i], w)
  }

  ghost predicate Covers(chain: seq<AccessEvent>, t: Trial, o: Outcome, w: Id) {
    exists i :: 0 <= i < |chain| && chain[i].hash in o.cited && Evidence(t, chain[i], w)
  }

  /** The outcome cites exactly successes of the current run in the plan's windows. */
  ghost predicate Witnessed(chain: seq<AccessEvent>, t: Trial, o: Outcome) {
    && (forall x :: x in o.cited ==> Cites(chain, t, o, x))
    && (forall w :: w in PlanWindows(t.registration, o) ==> Covers(chain, t, o, w))
  }

  ghost predicate TrialAccessOk(chain: seq<AccessEvent>, t: Trial) {
    && (forall i :: 0 <= i < |t.bindings| ==> t.bindings[i].chain <= chain)
    && (forall i :: 0 <= i < |t.outcomes| ==> Witnessed(chain, t, t.outcomes[i]))
  }

  ghost predicate AccessInv(h: Hashes, st: State) {
    && ValidChain(h.access, st.chain)
    && (forall i :: 0 <= i < |st.chain| ==> AccessOk(st.trials, st.chain[i]))
    && (forall x :: x in st.bound ==> exists i :: 0 <= i < |st.chain| && st.chain[i].hash == x)
    && (forall i :: 0 <= i < |st.trials| ==> TrialAccessOk(st.chain, st.trials[i]))
  }

  ghost predicate Inv(h: Hashes, st: State) {
    && LogInv(h, st)
    && PolicyInv(st.policies)
    && TrialInv(h, st.policies, st.trials, |st.accepted|)
    && LineageInv(st.policies, st.trials)
    && (forall i :: 0 <= i < |st.trials| ==> LifeOk(st.trials[i]))
    && AccessInv(h, st)
  }

  // ------------------------------------------------------------ preservation

  /** The policies of `ps` keep their place and content in `ps'`. */
  ghost predicate PoliciesKept(ps: seq<PolicyEntry>, ps': seq<PolicyEntry>) {
    |ps| <= |ps'| && forall k :: 0 <= k < |ps| ==> ps'[k].policy == ps[k].policy
  }

  /** The part of a trial that registration fixes for good. */
  ghost predicate SameRegistration(t: Trial, t': Trial) {
    && t'.id == t.id && t'.registration == t.registration && t'.configuration == t.configuration
    && t'.sequence == t.sequence && t'.hash == t.hash && t'.at == t.at
  }

  ghost predicate TrialsKept(ts: seq<Trial>, ts': seq<Trial>) {
    |ts| <= |ts'| && forall i :: 0 <= i < |ts| ==> SameRegistration(ts[i], ts'[i])
  }

  lemma {:induction false} GenerationKept(ps: seq<PolicyEntry>, ps': seq<PolicyEntry>, t: Trial, t': Trial)
    requires PoliciesKept(ps, ps') && t.registration == t'.registration && Generation(ps, t) < |ps|
    ensures Generation(ps', t') == Generation(ps, t)
  {}

  lemma {:induction false} FindKept(ts: seq<Trial>, ts': seq<Trial>, id: Id)
    requires TrialsKept(ts, ts') && FindTrial(ts, id) < |ts|
    ensures FindTrial(ts', id) == FindTrial(ts, id)
  {}

  /** An accepted event that is no repeat appends a policy, appends a trial, or acts on one
      open trial without touching what its registration fixed. */
  lemma {:induction false} EffectShape(h: Hashes, st: State, e: Event)
    requires Judge(h, st, e) == Accept && !Repeat(st, e)
    ensures PoliciesKept(st.policies, Effect(h, st, e).policies)
    ensures TrialsKept(st.trials, Effect(h, st, e).trials)
    ensures !e.body.kind.PolicyRegistered? ==> |Effect(h, st, e).policies| == |st.policies|
    ensures !e.body.kind.TrialRegistered? ==> |Effect(h, st, e).trials| == |st.trials|
    ensures !e.body.kind.PolicyRegistered? && !e.body.kind.TrialRegistered? ==>
      var k := FindTrial(st.trials, e.body.kind.trial);
      && k < |st.trials| && !st.trials[k].status.Closed?
      && Effect(h, st, e).trials == st.trials[k := ActOn(h, st.trials[k], e.body)]
  {
    hide FindTrial, FindPolicy, StartVerdict, AccessVerdict, OutcomeVerdict, EndVerdict, RegisterVerdict, PolicyVerdict,
      ValidPolicy, ValidRegistration, ValidChain, ConfigurationOf, ActOn, Freeze;
    var st' := Effect(h, st, e);
    match e.body.kind
    case PolicyRegistered(p) =>
      assert st'.policies == st.policies + [PolicyEntry(p, None)] && st'.trials == st.trials;
    case TrialRegistered(_, _) =>
      assert st'.trials == st.trials + [NewTrial(h, e)] && st'.policies == st.policies;
    case _ =>
      var k := FindTrial(st.trials, e.body.kind.trial);
      var t := st.trials[k];
      assert st'.trials == st.trials[k := ActOn(h, t, e.body)];
      ActionKeepsRegistration(h, t, e.body);
      FreezeKeepsPolicies(st.policies, t.registration.policy, e.body.sequence);
      assert st'.policies == st.policies || st'.policies == Freeze(st.policies, t.registration.policy, e.body.sequence);
  }

  lemma {:induction false} ActionKeepsRegistration(h: Hashes, t: Trial, b: EventBody)
    ensures SameRegistration(t, ActOn(h, t, b))
  {}

  lemma {:induction false} FreezeKeepsPolicies(ps: seq<PolicyEntry>, policy: Id, sequence: int)
    ensures PoliciesKept(ps, Freeze(ps, policy, sequence)) && |Freeze(ps, policy, sequence)| == |ps|
  {}

  lemma {:induction false} EntriesExtended(h: Hashes, log: seq<Event>, seen: map<Id, Event>, e: Event)
    requires LogEntries(h, log, seen) && ValidEvent(h, e) && e.body.id !in seen
    requires e.body.sequence == |log| + 1 && e.body.previous == Head(log)
    ensures LogEntries(h, log + [e], seen[e.body.id := e])
  {
    hide ValidEvent;
    var log' := log + [e];
    forall i | 0 <= i < |log'|
      ensures log'[i].body.previous == HeadBefore(log', i)
    {
      assert i < |log| ==> HeadBefore(log', i) == HeadBefore(log, i) && log'[i] == log[i];
    }
  }

  lemma {:induction false} SeenExtended(log: seq<Event>, seen: map<Id, Event>, e: Event)
    requires SeenAreLogged(log, seen)
    ensures SeenAreLogged(log + [e], seen[e.body.id := e])
  {
    var seen' := seen[e.body.id := e];
    forall id | id in seen'
      ensures seen'[id] in log + [e] && seen'[id].body.id == id
    {
      assert id != e.body.id ==> id in seen && seen[id] in log;
    }
  }

  lemma {:induction false} LogPreserved(h: Hashes, st: State, e: Event)
    requires LogInv(h, st) && Judge(h, st, e) == Accept && !Repeat(st, e)
    ensures LogInv(h, Effect(h, st, e))
  {
    hide LogEntries, SeenAreLogged, KindEffect, KindVerdict, ValidEvent;
    EntriesExtended(h, st.accepted, st.seen, e);
    SeenExtended(st.accepted, st.seen, e);
  }

  lemma {:induction false} PoliciesPreserved(h: Hashes, st: State, e: Event)
    requires PolicyInv(st.policies) && Judge(h, st, e) == Accept && !Repeat(st, e)
    ensures PolicyInv(Effect(h, st, e).policies)
  {
    if e.body.kind.PolicyRegistered? {
      var p := e.body.kind.policy;
      assert ValidPolicy(p) && PolicyVerdict(h, st, p) == Accept;
      assert Effect(h, st, e).policies == st.policies + [PolicyEntry(p, None)];
      hide Judge, Effect, ValidPolicy;
      AppendedPolicy(h, st, p);
    } else {
      EffectShape(h, st, e);
      hide *;
      KeptPolicies(st.policies, Effect(h, st, e).policies);
    }
  }

  lemma {:induction false} KeptPolicies(ps: seq<PolicyEntry>, ps': seq<PolicyEntry>)
    requires PolicyInv(ps) && PoliciesKept(ps, ps') && |ps'| == |ps|
    ensures PolicyInv(ps')
  {
    hide ValidPolicy;
  }

  lemma {:induction false} AppendedPolicy(h: Hashes, st: State, p: Policy)
    requires PolicyInv(st.policies) && ValidPolicy(p) && PolicyVerdict(h, st, p) == Accept
    ensures PolicyInv(st.policies + [PolicyEntry(p, None)])
  {
    hide ValidPolicy, FindPolicy;
  }

  lemma {:induction false} RegisterFacts(h: Hashes, st: State, id: Id, r: Registration)
    requires RegisterVerdict(h, st, id, r) == Accept
    ensures PolicyChecks(st, id, r) == Accept
    ensures FindPolicy(st.policies, r.policy) < |st.policies|
    ensures var p := st.policies[FindPolicy(st.policies, r.policy)].policy;
      && GridChecks(st.trials, p, r) == Accept
      && ParentChecks(st.trials, p, r) == Accept
      && StructuralChecks(st.trials, p, r) == Accept
      && ConfigurationChecks(st.trials, h.configuration(ConfigurationOf(r)), r) == Accept
  {
    hide ConfigurationChecks, StructuralChecks, ParentChecks, GridChecks, ConfigurationOf;
  }

  lemma {:induction false} NewTrialOk(h: Hashes, st: State, e: Event)
    requires PolicyInv(st.policies) && e.body.kind.TrialRegistered? && ValidRegistration(e.body.kind.registration)
    requires RegisterVerdict(h, st, e.body.kind.trial, e.body.kind.registration) == Accept
    ensures TrialOk(h, st.policies, NewTrial(h, e))
    ensures Generation(st.policies, NewTrial(h, e)) + 1 == |st.policies|
    ensures FindTrial(st.trials, e.body.kind.trial) == |st.trials|
  {
    RegisterFacts(h, st, e.body.kind.trial, e.body.kind.registration);
    hide RegisterVerdict, ConfigurationChecks, StructuralChecks, ParentChecks, ConfigurationOf, ValidRegistration;
  }

  /** Trials keep satisfying their invariant when nothing their registration fixed changes. */
  lemma {:induction false} KeptTrials(h: Hashes, ps: seq<PolicyEntry>, ps': seq<PolicyEntry>, ts: seq<Trial>,
                                      ts': seq<Trial>, limit: int)
    requires TrialInv(h, ps, ts, limit) && PoliciesKept(ps, ps') && TrialsKept(ts, ts') && |ts'| == |ts|
    ensures TrialInv(h, ps', ts', limit + 1)
  {
    hide ValidRegistration, ConfigurationOf, ValidPolicy, OnGrid, FindPolicy;
    forall i | 0 <= i < |ts|
      ensures Generation(ps', ts'[i]) == Generation(ps, ts[i])
    {
      GenerationKept(ps, ps', ts[i], ts'[i]);
    }
  }

  lemma {:induction false} AppendedTrial(h: Hashes, ps: seq<PolicyEntry>, ts: seq<Trial>, t: Trial, limit: int)
    requires TrialInv(h, ps, ts, limit) && TrialOk(h, ps, t) && t.sequence == limit + 1
    requires Generation(ps, t) + 1 == |ps| && FindTrial(ts, t.id) == |ts|
    ensures TrialInv(h, ps, ts + [t], limit + 1)
  {
    hide TrialOk, FindPolicy, FindTrial;
  }

  lemma {:induction false} TrialsPreserved(h: Hashes, st: State, e: Event)
    requires PolicyInv(st.policies) && TrialInv(h, st.policies, st.trials, |st.accepted|)
    requires Judge(h, st, e) == Accept && !Repeat(st, e)
    ensures TrialInv(h, Effect(h, st, e).policies, Effect(h, st, e).trials, |st.accepted| + 1)
  {
    hide FindPolicy, FindTrial, PolicyInv, TrialInv, TrialOk;
    var st' := Effect(h, st, e);
    if e.body.kind.TrialRegistered? {
      NewTrialOk(h, st, e);
      assert st'.trials == st.trials + [NewTrial(h, e)] && st'.policies == st.policies;
      assert NewTrial(h, e).sequence == |st.accepted| + 1;
      hide *;
      AppendedTrial(h, st.policies, st.trials, NewTrial(h, e), |st.accepted|);
    } else {
      EffectShape(h, st, e);
      hide *;
      KeptTrials(h, st.policies, st'.policies, st.trials, st'.trials, |st.accepted|);
    }
  }

  lemma {:induction false} KeptLineage(ps: seq<PolicyEntry>, ps': seq<PolicyEntry>, ts: seq<Trial>, ts': seq<Trial>)
    requires LineageInv(ps, ts) && PoliciesKept(ps, ps') && TrialsKept(ts, ts') && |ts'| == |ts|
    requires forall i :: 0 <= i < |ts| ==> Generation(ps, ts[i]) < |ps|
    ensures LineageInv(ps', ts')
  {
    hide FindPolicy, FindTrial;
    forall i | 0 <= i < |ts|
      ensures ParentOk(ps', ts', i)
    {
      GenerationKept(ps, ps', ts[i], ts'[i]);
      assert ParentOk(ps, ts, i);
      if ts[i].registration.parent.Some? {
        var k := FindTrial(ts, ts[i].registration.parent.value);
        FindKept(ts, ts', ts[i].registration.parent.value);
        GenerationKept(ps, ps', ts[k], ts'[k]);
      }
    }
    hide ParentOk;
    KeptKeys(ps, ts, ts');
  }

  lemma {:induction false} KeptKey(ts: seq<Trial>, ts': seq<Trial>, key: Trial -> int)
    requires KeyLineage(ts, key) && TrialsKept(ts, ts') && |ts'| == |ts|
    requires forall i :: 0 <= i < |ts| ==> key(ts'[i]) == key(ts[i])
    ensures KeyLineage(ts', key)
  {
    forall i, j | 0 <= i < j < |ts'| && key(ts'[i]) == key(ts'[j])
                  && (forall k :: i < k < j ==> key(ts'[k]) != key(ts'[j]))
      ensures ts'[j].registration.parent == Some(ts'[i].id)
    {
      assert forall k :: i < k < j ==> key(ts'[k]) == key(ts[k]);
      assert SameRegistration(ts[i], ts'[i]) && SameRegistration(ts[j], ts'[j]);
    }
  }

  lemma {:induction false} KeptKeys(ps: seq<PolicyEntry>, ts: seq<Trial>, ts': seq<Trial>)
    requires LineageInv(ps, ts) && TrialsKept(ts, ts') && |ts'| == |ts|
    ensures KeyLineage(ts', ConfigurationKey) && KeyLineage(ts', StructuralKey)
    ensures forall i, j :: 0 <= i < j < |ts'| && StructuralKey(ts'[i]) == StructuralKey(ts'[j]) ==>
      CoordinateOf(ts'[i].registration) == CoordinateOf(ts'[j].registration)
    ensures forall i, j :: 0 <= i < j < |ts'| && ts'[i].registration.policy == ts'[j].registration.policy
                           && ts'[i].registration.gridClass == ts'[j].registration.gridClass == RegisteredGrid ==>
      CoordinateOf(ts'[i].registration) != CoordinateOf(ts'[j].registration)
  {
    hide ParentOk, KeyLineage;
    assert forall i :: 0 <= i < |ts| ==> SameRegistration(ts[i], ts'[i]);
    KeptKey(ts, ts', ConfigurationKey);
    KeptKey(ts, ts', StructuralKey);
  }

  lemma {:induction false} NewParentOk(h: Hashes, ps: seq<PolicyEntry>, ts: seq<Trial>, t: Trial)
    requires PolicyInv(ps) && ps != [] && FindPolicy(ps, t.registration.policy) == |ps| - 1
    requires forall i :: 0 <= i < |ts| ==> TrialOk(h, ps, ts[i])
    requires t.registration.policyVersion == ps[|ps| - 1].policy.version
    requires ParentChecks(ts, ps[|ps| - 1].policy, t.registration) == Accept
    ensures ParentOk(ps, ts + [t], |ts|)
  {
    hide FindPolicy, FindTrial, ValidRegistration, ConfigurationOf, ValidPolicy, OnGrid;
    var ts' := ts + [t];
    if t.registration.parent.Some? {
      var k := FindTrial(ts, t.registration.parent.value);
      assert TrialsKept(ts, ts');
      FindKept(ts, ts', t.registration.parent.value);
      assert TrialOk(h, ps, ts[k]) && ts'[k] == ts[k];
      var g := Generation(ps, ts[k]);
      assert ps[g].policy.version < ps[|ps| - 1].policy.version;
      assert g < |ps| - 1;
      assert ps[|ps| - 1].policy.predecessor.value.policy == ps[|ps| - 2].policy.id;
    }
  }

  /** One key's lineage is extended by a trial of the latest policy that names the latest
      trial with its key as parent. */
  lemma {:induction false} ExtendLineage(ts: seq<Trial>, t: Trial, key: Trial -> int, latest: int)
    requires KeyLineage(ts, key) && -1 <= latest < |ts|
    requires forall i :: 0 <= i < |ts| && key(ts[i]) == key(t) ==> ts[i].registration.policy != t.registration.policy
    requires forall i :: latest < i < |ts| ==> key(ts[i]) != key(t)
    requires latest >= 0 ==> key(ts[latest]) == key(t) && t.registration.parent == Some(ts[latest].id)
    ensures KeyLineage(ts + [t], key)
  {
    var ts' := ts + [t];
    forall i, j | 0 <= i < j < |ts'| && key(ts'[i]) == key(ts'[j])
      ensures ts'[i].registration.policy != ts'[j].registration.policy
    {
      assert ts'[i] == ts[i];
    }
    forall i, j | 0 <= i < j < |ts'| && key(ts'[i]) == key(ts'[j])
                  && (forall k :: i < k < j ==> key(ts'[k]) != key(ts'[j]))
      ensures ts'[j].registration.parent == Some(ts'[i].id)
    {
      if j < |ts| {
        assert forall k :: i < k < j ==> ts'[k] == ts[k];
      } else {
        assert i <= latest && ts'[latest] == ts[latest];
      }
    }
  }

  lemma {:induction false} ParentsExtended(ps: seq<PolicyEntry>, ts: seq<Trial>, t: Trial)
    requires forall i :: 0 <= i < |ts| ==> ParentOk(ps, ts, i)
    ensures forall i :: 0 <= i < |ts| ==> ParentOk(ps, ts + [t], i)
  {
    hide FindPolicy, FindTrial;
    var ts' := ts + [t];
    assert TrialsKept(ts, ts');
    forall i | 0 <= i < |ts|
      ensures ParentOk(ps, ts', i)
    {
      assert ParentOk(ps, ts, i) && ts'[i] == ts[i];
      if ts[i].registration.parent.Some? {
        FindKept(ts, ts', ts[i].registration.parent.value);
      }
    }
  }

  /** The new trial keeps the coordinate of its structural id and takes a free grid cell. */
  lemma {:induction false} CoordinatesExtended(h: Hashes, ps: seq<PolicyEntry>, ts: seq<Trial>, t: Trial, i: nat)
    requires PolicyInv(ps) && i < |ts|
    requires forall i :: 0 <= i < |ts| ==> TrialOk(h, ps, ts[i])
    requires ps != [] && FindPolicy(ps, t.registration.policy) == |ps| - 1
    requires GridChecks(ts, ps[|ps| - 1].policy, t.registration) == Accept
    requires StructuralChecks(ts, ps[|ps| - 1].policy, t.registration) == Accept
    requires ts[i].registration.policy == t.registration.policy ==>
      ts[i].registration.structural != t.registration.structural
    ensures StructuralKey(ts[i]) == StructuralKey(t) ==>
      CoordinateOf(ts[i].registration) == CoordinateOf(t.registration)
    ensures ts[i].registration.policy == t.registration.policy
            && ts[i].registration.gridClass == t.registration.gridClass == RegisteredGrid ==>
      CoordinateOf(ts[i].registration) != CoordinateOf(t.registration)
  {
    hide FindPolicy, LatestStructural, TrialOk, OnGrid, ValidPolicy;
    if |ps| == 1 {
      SamePolicy(h, ps, ts, t);
    }
    assert ts[i] in ts;
    assert |ps| > 1 ==> ps[|ps| - 1].policy.predecessor.Some?;
  }

  lemma {:induction false} SamePolicy(h: Hashes, ps: seq<PolicyEntry>, ts: seq<Trial>, t: Trial)
    requires forall i :: 0 <= i < |ts| ==> TrialOk(h, ps, ts[i])
    requires |ps| == 1 && FindPolicy(ps, t.registration.policy) == 0
    ensures forall i :: 0 <= i < |ts| ==> ts[i].registration.policy == t.registration.policy
  {
    hide FindPolicy, ValidPolicy, ValidRegistration, ConfigurationOf, OnGrid;
  }

  lemma {:induction false} KeysExtended(h: Hashes, ps: seq<PolicyEntry>, ts: seq<Trial>, t: Trial)
    requires LineageInv(ps, ts) && PolicyInv(ps)
    requires forall i :: 0 <= i < |ts| ==> TrialOk(h, ps, ts[i])
    requires ps != [] && FindPolicy(ps, t.registration.policy) == |ps| - 1
    requires StructuralChecks(ts, ps[|ps| - 1].policy, t.registration) == Accept
    requires ConfigurationChecks(ts, t.configuration, t.registration) == Accept
    ensures KeyLineage(ts + [t], ConfigurationKey) && KeyLineage(ts + [t], StructuralKey)
    ensures forall i :: 0 <= i < |ts| && ts[i].registration.policy == t.registration.policy ==>
      ts[i].registration.structural != t.registration.structural
  {
    hide FindPolicy, FindTrial, TrialOk, ParentOk, FirstConflict, LatestStructural, LatestConfiguration;
    assert forall i :: 0 <= i < |ts| ==> Conflict(t.registration, t.configuration, ts[i]).None?;
    if |ps| == 1 {
      SamePolicy(h, ps, ts, t);
    }
    assert |ps| > 1 ==> ps[|ps| - 1].policy.predecessor.Some?;
    hide KeyLineage;
    ExtendLineage(ts, t, ConfigurationKey, LatestConfiguration(ts, t.configuration));
    ExtendLineage(ts, t, StructuralKey, LatestStructural(ts, t.registration.structural));
  }

  lemma {:induction false} AppendedLineage(h: Hashes, ps: seq<PolicyEntry>, ts: seq<Trial>, t: Trial)
    requires LineageInv(ps, ts) && PolicyInv(ps)
    requires forall i :: 0 <= i < |ts| ==> TrialOk(h, ps, ts[i])
    requires ps != [] && FindPolicy(ps, t.registration.policy) == |ps| - 1
    requires t.registration.policyVersion == ps[|ps| - 1].policy.version
    requires ParentChecks(ts, ps[|ps| - 1].policy, t.registration) == Accept
    requires GridChecks(ts, ps[|ps| - 1].policy, t.registration) == Accept
    requires StructuralChecks(ts, ps[|ps| - 1].policy, t.registration) == Accept
    requires ConfigurationChecks(ts, t.configuration, t.registration) == Accept
    ensures LineageInv(ps, ts + [t])
  {
    hide FindPolicy, FindTrial, ParentChecks, StructuralChecks, GridChecks, ConfigurationChecks, TrialOk, PolicyInv,
      ParentOk, KeyLineage, OnGrid;
    NewParentOk(h, ps, ts, t);
    ParentsExtended(ps, ts, t);
    KeysExtended(h, ps, ts, t);
    forall i | 0 <= i < |ts|
      ensures StructuralKey(ts[i]) == StructuralKey(t) ==>
        CoordinateOf(ts[i].registration) == CoordinateOf(t.registration)
      ensures ts[i].registration.policy == t.registration.policy
              && ts[i].registration.gridClass == t.registration.gridClass == RegisteredGrid ==>
        CoordinateOf(ts[i].registration) != CoordinateOf(t.registration)
    {
      CoordinatesExtended(h, ps, ts, t, i);
    }
  }

  lemma {:induction false} LineagePreserved(h: Hashes, st: State, e: Event)
    requires PolicyInv(st.policies) && TrialInv(h, st.policies, st.trials, |st.accepted|)
    requires LineageInv(st.policies, st.trials)
    requires Judge(h, st, e) == Accept && !Repeat(st, e)
    ensures LineageInv(Effect(h, st, e).policies, Effect(h, st, e).trials)
  {
    hide FindPolicy, FindTrial, PolicyInv, TrialOk, LineageInv, ConfigurationChecks, StructuralChecks, ParentChecks,
      GridChecks,
      ConfigurationOf, ValidRegistration;
    var st' := Effect(h, st, e);
    if e.body.kind.TrialRegistered? {
      var t := NewTrial(h, e);
      NewTrialOk(h, st, e);
      RegisterFacts(h, st, t.id, t.registration);
      assert st'.trials == st.trials + [t] && st'.policies == st.policies;
      assert t.registration.policyVersion == st.policies[|st.policies| - 1].policy.version;
      hide *;
      AppendedLineage(h, st.policies, st.trials, t);
    } else {
      EffectShape(h, st, e);
      hide *;
      KeptLineage(st.policies, st'.policies, st.trials, st'.trials);
    }
  }

  // A trial's life, event by event.

  lemma {:induction false} StartKeepsLife(st: State, t: Trial, b: EventBody, run: Id, reason: Option<Id>)
    requires LifeOk(t) && !t.status.Closed? && StartVerdict(st, t, run, reason) == Accept
    ensures LifeOk(StartTrial(t, b, run, reason))
  {
    hide FindPolicy, FindPlan;
    var t' := StartTrial(t, b, run, reason);
    assert |t'.attempts| == |t.attempts| + 1 && t'.attempts[|t.attempts|].run == run;
    assert forall i :: 0 <= i < |t.attempts| ==> t'.attempts[i].run == t.attempts[i].run && t.attempts[i] in t.attempts;
  }

  lemma {:induction false} OutcomeKeepsLife(t: Trial, at: Time, o: Outcome)
    requires LifeOk(t) && t.status == Running && OutcomeVerdict(t, at, o) == Accept
    ensures LifeOk(t.(outcomes := t.outcomes + [o]))
  {
    hide FindPlan, Successes, Concat, WindowIdsOf, RegisteredKeys;
    var t' := t.(outcomes := t.outcomes + [o]);
    assert Planned(t.registration, o);
    assert forall i :: 0 <= i < |t.outcomes| ==> t'.outcomes[i] == t.outcomes[i] && t.outcomes[i] in t.outcomes;
  }

  lemma {:induction false} EndKeepsLife(t: Trial, b: EventBody, terminal: Terminal, reason: Option<Id>)
    requires LifeOk(t) && EndVerdict(t, terminal) == Accept
    ensures LifeOk(EndTrial(t, b, terminal, reason))
  {
    hide FindPlan;
    var t' := EndTrial(t, b, terminal, reason);
    assert forall i :: 0 <= i < |t.attempts| ==> t'.attempts[i].run == t.attempts[i].run;
    assert ObservedIds(t') == ObservedIds(t) && PlannedIds(t') == PlannedIds(t);
  }

  lemma {:induction false} TrialFacts(h: Hashes, st: State, b: EventBody, k: nat)
    requires !b.kind.PolicyRegistered? && !b.kind.TrialRegistered? && ValidKind(h, b.kind)
    requires TrialVerdict(h, st, b) == Accept && k == FindTrial(st.trials, b.kind.trial)
    ensures k < |st.trials| && st.trials[k].id == b.kind.trial && !st.trials[k].status.Closed?
    ensures b.kind.TrialStarted? ==> StartVerdict(st, st.trials[k], b.kind.run, b.kind.retryReason) == Accept
    ensures b.kind.SampleAccessBound? ==> AccessVerdict(st, st.trials[k], b.at, b.kind.access) == Accept
    ensures b.kind.OutcomeRecorded? ==>
      st.trials[k].status == Running && OutcomeVerdict(st.trials[k], b.at, b.kind.outcome) == Accept
    ensures b.kind.TrialEnded? ==> EndVerdict(st.trials[k], b.kind.terminal) == Accept
  {
    hide FindTrial, StartVerdict, AccessVerdict, OutcomeVerdict, EndVerdict, ValidChain;
  }

  lemma {:induction false} ActionKeepsLife(h: Hashes, st: State, b: EventBody, k: nat)
    requires !b.kind.PolicyRegistered? && !b.kind.TrialRegistered? && ValidKind(h, b.kind)
    requires TrialVerdict(h, st, b) == Accept && k == FindTrial(st.trials, b.kind.trial)
    requires k < |st.trials| && LifeOk(st.trials[k])
    ensures LifeOk(ActOn(h, st.trials[k], b))
  {
    TrialFacts(h, st, b, k);
    var t := st.trials[k];
    hide FindTrial, StartVerdict, AccessVerdict, OutcomeVerdict, EndVerdict, TrialVerdict, ValidKind, FindPlan;
    match b.kind
    case TrialStarted(_, run, reason) => hide LifeOk; StartKeepsLife(st, t, b, run, reason);
    case SampleAccessBound(_, access) =>
      assert t.status == Running by { AccessFacts(st, t, b.at, access); }
      assert ObservedIds(ActOn(h, t, b)) == ObservedIds(t);
    case OutcomeRecorded(_, o) => hide LifeOk; OutcomeKeepsLife(t, b.at, o);
    case TrialEnded(_, terminal, reason) => hide LifeOk; EndKeepsLife(t, b, terminal, reason);
  }

  lemma {:induction false} AccessFacts(st: State, t: Trial, at: Time, b: AccessBinding)
    requires b.chain != [] && AccessVerdict(st, t, at, b) == Accept
    ensures t.status == Running && t.attempts != []
    ensures ChainChecks(st, t, b.chain) == Accept && RunChecks(st, t, at, b.chain) == Accept
    ensures st.chain <= b.chain
    ensures forall i :: |st.chain| <= i < |b.chain| ==> OfRun(b.chain[i], t.id, t.run)
  {
    hide FindPolicy, FirstOfRun, RunChecks;
  }

  lemma {:induction false} LifePreserved(h: Hashes, st: State, e: Event)
    requires forall i :: 0 <= i < |st.trials| ==> LifeOk(st.trials[i])
    requires Judge(h, st, e) == Accept && !Repeat(st, e)
    ensures forall i :: 0 <= i < |Effect(h, st, e).trials| ==> LifeOk(Effect(h, st, e).trials[i])
  {
    hide FindTrial, FindPolicy, StartVerdict, AccessVerdict, OutcomeVerdict, EndVerdict, RegisterVerdict, PolicyVerdict,
      ValidPolicy, ValidRegistration, ValidChain, ConfigurationOf, ActOn;
    var st' := Effect(h, st, e);
    EffectShape(h, st, e);
    if e.body.kind.PolicyRegistered? {
      assert st'.trials == st.trials;
    } else if e.body.kind.TrialRegistered? {
      assert st'.trials == st.trials + [NewTrial(h, e)];
      assert LifeOk(NewTrial(h, e));
      hide *;
    } else {
      var k := FindTrial(st.trials, e.body.kind.trial);
      ActionKeepsLife(h, st, e.body, k);
      hide *;
    }
  }

  // The access chain.

  /** An outcome stays witnessed while the chain grows and the trial keeps its run. */
  lemma {:induction false} StillWitnessed(chain: seq<AccessEvent>, chain': seq<AccessEvent>, t: Trial, t': Trial,
                                          o: Outcome)
    requires chain <= chain' && Witnessed(chain, t, o)
    requires t'.id == t.id && t'.registration == t.registration && t'.run == t.run
    ensures Witnessed(chain', t', o)
  {
    hide Cites, Covers, PlanWindows;
    forall x | x in o.cited { StillCites(chain, chain', t, t', o, x); }
    forall w | w in PlanWindows(t.registration, o) { StillCovers(chain, chain', t, t', o, w); }
  }

  lemma {:induction false} StillCites(chain: seq<AccessEvent>, chain': seq<AccessEvent>, t: Trial, t': Trial,
                                      o: Outcome, x: Hash)
    requires chain <= chain' && Cites(chain, t, o, x)
    requires t'.id == t.id && t'.registration == t.registration && t'.run == t.run
    ensures Cites(chain', t', o, x)
  {
    hide PlanWindows;
    var i, w :| 0 <= i < |chain| && chain[i].hash == x && w in PlanWindows(t.registration, o)
      && Evidence(t, chain[i], w);
    assert chain'[i] == chain[i] && Evidence(t', chain'[i], w);
  }

  lemma {:induction false} StillCovers(chain: seq<AccessEvent>, chain': seq<AccessEvent>, t: Trial, t': Trial,
                                       o: Outcome, w: Id)
    requires chain <= chain' && Covers(chain, t, o, w)
    requires t'.id == t.id && t'.registration == t.registration && t'.run == t.run
    ensures Covers(chain', t', o, w)
  {
    var i :| 0 <= i < |chain| && chain[i].hash in o.cited && Evidence(t, chain[i], w);
    assert chain'[i] == chain[i] && Evidence(t', chain'[i], w);
  }

  /** Trials keep satisfying the access invariant while the chain grows. */
  lemma {:induction false} ChainGrown(chain: seq<AccessEvent>, chain': seq<AccessEvent>, t: Trial, t': Trial)
    requires chain <= chain' && TrialAccessOk(chain, t)
    requires t'.id == t.id && t'.registration == t.registration && t'.outcomes == t.outcomes
    requires t.outcomes == [] || t'.run == t.run
    requires forall i :: 0 <= i < |t'.bindings| ==> t'.bindings[i].chain <= chain'
    ensures TrialAccessOk(chain', t')
  {
    hide Witnessed;
    forall i | 0 <= i < |t'.outcomes|
      ensures Witnessed(chain', t', t'.outcomes[i])
    {
      StillWitnessed(chain, chain', t, t', t.outcomes[i]);
    }
  }

  lemma {:induction false} SuccessInChain(chain: seq<AccessEvent>, t: Trial, x: Hash) returns (j: nat)
    requires forall i :: 0 <= i < |t.bindings| ==> t.bindings[i].chain <= chain
    requires x in Successes(Concat(t.bindings), t.id)
    ensures j < |chain| && chain[j] == Successes(Concat(t.bindings), t.id)[x]
  {
    hide Successes, Concat;
    var a := Successes(Concat(t.bindings), t.id)[x];
    var i :| 0 <= i < |t.bindings| && a in t.bindings[i].chain;
    j :| 0 <= j < |t.bindings[i].chain| && t.bindings[i].chain[j] == a;
  }

  lemma {:induction false} OutcomeFacts(t: Trial, at: Time, o: Outcome, all: map<Hash, AccessEvent>)
    requires OutcomeVerdict(t, at, o) == Accept && all == Successes(Concat(t.bindings), t.id)
    ensures forall x :: x in o.cited ==>
      x in all && Some(all[x].body.request.run) == t.run && all[x].body.request.window in RegisteredKeys(t.registration)
    ensures o.cited <= all.Keys
    ensures WindowIdsOf(t.registration, set x | x in o.cited :: all[x]) == PlanWindows(t.registration, o)
  {
    hide Successes, Concat, FindPlan, WindowIdsOf, RegisteredKeys;
  }

  lemma {:induction false} NewCitation(chain: seq<AccessEvent>, t: Trial, o: Outcome, all: map<Hash, AccessEvent>,
                                       x: Hash, j: nat)
    requires o.cited <= all.Keys && x in o.cited && j < |chain| && chain[j] == all[x] && all[x].hash == x
    requires all[x].body.kind == Success && OfRun(all[x], t.id, t.run)
    requires all[x].body.request.window in RegisteredKeys(t.registration)
    requires WindowIdsOf(t.registration, set y | y in o.cited :: all[y]) == PlanWindows(t.registration, o)
    ensures Cites(chain, t, o, x)
  {
    hide PlanWindows;
    var w :| w in t.registration.windows && w.key == all[x].body.request.window;
    var cited := set y | y in o.cited :: all[y];
    assert all[x] in cited;
    assert w.id in WindowIdsOf(t.registration, cited);
    assert w == Window(w.id, chain[j].body.request.window);
    assert Evidence(t, chain[j], w.id);
  }

  lemma {:induction false} NewCover(t: Trial, o: Outcome, all: map<Hash, AccessEvent>, w: Id) returns (x: Hash)
    requires o.cited <= all.Keys
    requires w in WindowIdsOf(t.registration, set y | y in o.cited :: all[y])
    ensures x in o.cited && Window(w, all[x].body.request.window) in t.registration.windows
  {
    var cited := set y | y in o.cited :: all[y];
    var a, v :| a in cited && v in t.registration.windows && v.key == a.body.request.window && v.id == w;
    x :| x in o.cited && all[x] == a;
    assert v == Window(w, all[x].body.request.window);
  }

  lemma {:induction false} OutcomeWitnessed(chain: seq<AccessEvent>, t: Trial, at: Time, o: Outcome)
    requires forall i :: 0 <= i < |t.bindings| ==> t.bindings[i].chain <= chain
    requires OutcomeVerdict(t, at, o) == Accept
    ensures Witnessed(chain, t, o)
  {
    hide OutcomeVerdict, PlanWindows, Cites, Covers;
    forall x | x in o.cited { OutcomeCitesOne(chain, t, at, o, x); }
    forall w | w in PlanWindows(t.registration, o) { OutcomeCoversOne(chain, t, at, o, w); }
  }

  lemma {:induction false} OutcomeCitesOne(chain: seq<AccessEvent>, t: Trial, at: Time, o: Outcome, x: Hash)
    requires forall i :: 0 <= i < |t.bindings| ==> t.bindings[i].chain <= chain
    requires OutcomeVerdict(t, at, o) == Accept && x in o.cited
    ensures Cites(chain, t, o, x)
  {
    var all := Successes(Concat(t.bindings), t.id);
    OutcomeFacts(t, at, o, all);
    var j := SuccessInChain(chain, t, x);
    hide OutcomeVerdict, Successes, Concat, PlanWindows, Cites, WindowIdsOf, RegisteredKeys;
    NewCitation(chain, t, o, all, x, j);
  }

  lemma {:induction false} OutcomeCoversOne(chain: seq<AccessEvent>, t: Trial, at: Time, o: Outcome, w: Id)
    requires forall i :: 0 <= i < |t.bindings| ==> t.bindings[i].chain <= chain
    requires OutcomeVerdict(t, at, o) == Accept && w in PlanWindows(t.registration, o)
    ensures Covers(chain, t, o, w)
  {
    hide OutcomeVerdict, Successes, Concat, PlanWindows, WindowIdsOf, RegisteredKeys;
    var all := Successes(Concat(t.bindings), t.id);
    OutcomeFacts(t, at, o, all);
    var x := NewCover(t, o, all, w);
    var j := SuccessInChain(chain, t, x);
    assert chain[j].hash in o.cited && Evidence(t, chain[j], w);
  }

  lemma {:induction false} OutcomeCites(chain: seq<AccessEvent>, t: Trial, at: Time, o: Outcome)
    requires TrialAccessOk(chain, t) && OutcomeVerdict(t, at, o) == Accept
    ensures TrialAccessOk(chain, t.(outcomes := t.outcomes + [o]))
  {
    hide OutcomeVerdict, Witnessed;
    var t' := t.(outcomes := t.outcomes + [o]);
    OutcomeWitnessed(chain, t, at, o);
    forall i | 0 <= i < |t'.outcomes|
      ensures Witnessed(chain, t', t'.outcomes[i])
    {
      StillWitnessed(chain, chain, t, t', t'.outcomes[i]);
    }
  }

  lemma {:induction false} AccessOkKept(ts: seq<Trial>, ts': seq<Trial>, a: AccessEvent)
    requires TrialsKept(ts, ts') && AccessOk(ts, a)
    ensures AccessOk(ts', a)
  {
    hide FindTrial;
    FindKept(ts, ts', a.body.request.trial);
    var k := FindTrial(ts, a.body.request.trial);
    assert SameRegistration(ts[k], ts'[k]);
  }

  lemma {:induction false} BindingAccessOk(st: State, t: Trial, at: Time, b: AccessBinding, ts': seq<Trial>, i: nat)
    requires b.chain != [] && AccessVerdict(st, t, at, b) == Accept && |st.chain| <= i < |b.chain|
    requires FindTrial(ts', t.id) < |ts'| && SameRegistration(t, ts'[FindTrial(ts', t.id)])
    ensures AccessOk(ts', b.chain[i])
  {
    hide FindTrial, FindPolicy;
    AccessFacts(st, t, at, b);
    hide AccessVerdict, ChainChecks;
    assert b.chain[i] in b.chain && OfRun(b.chain[i], t.id, t.run);
    assert MatchesFrozen(t, b.chain[i]);
  }

  /** Every event but an access binding leaves the access chain alone. */
  lemma {:induction false} AccessKept(h: Hashes, st: State, e: Event)
    requires AccessInv(h, st) && (forall i :: 0 <= i < |st.trials| ==> LifeOk(st.trials[i]))
    requires Judge(h, st, e) == Accept && !Repeat(st, e) && !e.body.kind.SampleAccessBound?
    ensures AccessInv(h, Effect(h, st, e))
  {
    var st' := Effect(h, st, e);
    EffectShape(h, st, e);
    assert st'.chain == st.chain && st'.bound == st.bound;
    forall i | 0 <= i < |st.chain|
      ensures AccessOk(st'.trials, st.chain[i])
    {
      hide Judge, Effect, ValidChain;
      AccessOkKept(st.trials, st'.trials, st.chain[i]);
    }
    forall i | 0 <= i < |st'.trials|
      ensures TrialAccessOk(st.chain, st'.trials[i])
    {
      if e.body.kind.TrialRegistered? {
        assert st'.trials == st.trials + [NewTrial(h, e)];
        assert i < |st.trials| ==> st'.trials[i] == st.trials[i];
      } else if e.body.kind.PolicyRegistered? {
        assert st'.trials == st.trials;
      } else {
        ActionKeepsAccess(h, st, e, i);
      }
    }
    hide Judge, Effect, ValidChain, AccessOk, TrialAccessOk;
  }

  lemma {:induction false} ActionKeepsAccess(h: Hashes, st: State, e: Event, i: nat)
    requires i < |st.trials| && TrialAccessOk(st.chain, st.trials[i]) && LifeOk(st.trials[i])
    requires Judge(h, st, e) == Accept && !Repeat(st, e)
    requires !e.body.kind.PolicyRegistered? && !e.body.kind.TrialRegistered? && !e.body.kind.SampleAccessBound?
    ensures i < |Effect(h, st, e).trials| && TrialAccessOk(st.chain, Effect(h, st, e).trials[i])
  {
    EffectShape(h, st, e);
    var k := FindTrial(st.trials, e.body.kind.trial);
    TrialFacts(h, st, e.body, k);
    var t, t' := st.trials[i], Effect(h, st, e).trials[i];
    hide Judge, Effect, FindTrial, AccessVerdict, EndVerdict, Witnessed, OutcomeVerdict;
    if i == k {
      if e.body.kind.OutcomeRecorded? {
        OutcomeCites(st.chain, t, e.body.at, e.body.kind.outcome);
      } else {
        assert t.outcomes == [] || t'.run == t.run;
        ChainGrown(st.chain, st.chain, t, t');
      }
    }
  }

  lemma {:induction false} BindingsInChain(chain: seq<AccessEvent>, b: AccessBinding, t: Trial, t': Trial)
    requires chain <= b.chain && TrialAccessOk(chain, t)
    requires t' == t || t' == t.(bindings := t.bindings + [b])
    ensures forall i :: 0 <= i < |t'.bindings| ==> t'.bindings[i].chain <= b.chain
  {
    hide Witnessed;
    assert forall i :: 0 <= i < |t.bindings| ==> t.bindings[i].chain <= chain;
  }

  lemma {:induction false} AccessGrown(h: Hashes, st: State, st': State, k: nat, at: Time, b: AccessBinding)
    requires AccessInv(h, st) && k < |st.trials| && FindTrial(st.trials, st.trials[k].id) == k
    requires b.chain != [] && ValidChain(h.access, b.chain) && b.chain[|b.chain| - 1].hash == b.head
    requires AccessVerdict(st, st.trials[k], at, b) == Accept
    requires st'.chain == b.chain && st'.bound == st.bound + {b.head}
    requires st'.trials == st.trials[k := st.trials[k].(bindings := st.trials[k].bindings + [b])]
    ensures AccessInv(h, st')
  {
    hide AccessVerdict, ChainChecks, RunChecks, ValidChain, AccessOk, TrialAccessOk, FindTrial;
    var t := st.trials[k];
    AccessFacts(st, t, at, b);
    forall i | 0 <= i < |b.chain| { GrownAccessOk(h, st, st'.trials, k, at, b, i); }
    BoundGrown(st.chain, b.chain, st.bound, b.head);
    forall i | 0 <= i < |st'.trials| { GrownTrialOk(st, st'.trials, k, b, i); }
    AccessParts(h, st');
  }

  lemma {:induction false} AccessParts(h: Hashes, st: State)
    requires ValidChain(h.access, st.chain)
    requires forall i :: 0 <= i < |st.chain| ==> AccessOk(st.trials, st.chain[i])
    requires forall x :: x in st.bound ==> exists i :: 0 <= i < |st.chain| && st.chain[i].hash == x
    requires forall i :: 0 <= i < |st.trials| ==> TrialAccessOk(st.chain, st.trials[i])
    ensures AccessInv(h, st)
  {
    hide ValidChain, AccessOk, TrialAccessOk;
  }

  lemma {:induction false} GrownAccessOk(h: Hashes, st: State, ts': seq<Trial>, k: nat, at: Time, b: AccessBinding,
                                         i: nat)
    requires AccessInv(h, st) && k < |st.trials| && FindTrial(st.trials, st.trials[k].id) == k
    requires b.chain != [] && AccessVerdict(st, st.trials[k], at, b) == Accept && i < |b.chain|
    requires ts' == st.trials[k := st.trials[k].(bindings := st.trials[k].bindings + [b])]
    ensures AccessOk(ts', b.chain[i])
  {
    var t := st.trials[k];
    AccessFacts(st, t, at, b);
    hide AccessVerdict, ChainChecks, RunChecks, FindTrial, ValidChain, AccessOk, TrialAccessOk;
    assert TrialsKept(st.trials, ts');
    FindKept(st.trials, ts', t.id);
    if i < |st.chain| {
      assert b.chain[i] == st.chain[i];
      AccessOkKept(st.trials, ts', st.chain[i]);
    } else {
      BindingAccessOk(st, t, at, b, ts', i);
    }
  }

  lemma {:induction false} GrownTrialOk(st: State, ts': seq<Trial>, k: nat, b: AccessBinding, i: nat)
    requires k < |st.trials| && st.chain <= b.chain && i < |st.trials| && TrialAccessOk(st.chain, st.trials[i])
    requires ts' == st.trials[k := st.trials[k].(bindings := st.trials[k].bindings + [b])]
    ensures TrialAccessOk(b.chain, ts'[i])
  {
    hide TrialAccessOk;
    BindingsInChain(st.chain, b, st.trials[i], ts'[i]);
    ChainGrown(st.chain, b.chain, st.trials[i], ts'[i]);
  }

  lemma {:induction false} BoundGrown(chain: seq<AccessEvent>, chain': seq<AccessEvent>, bound: set<Hash>, head: Hash)
    requires chain <= chain' && chain' != [] && chain'[|chain'| - 1].hash == head
    requires forall x :: x in bound ==> exists i :: 0 <= i < |chain| && chain[i].hash == x
    ensures forall x :: x in bound + {head} ==> exists i :: 0 <= i < |chain'| && chain'[i].hash == x
  {
    forall x | x in bound
      ensures exists i :: 0 <= i < |chain'| && chain'[i].hash == x
    {
      var i :| 0 <= i < |chain| && chain[i].hash == x;
      assert chain'[i] == chain[i];
    }
  }

  lemma {:induction false} AccessExtended(h: Hashes, st: State, e: Event)
    requires AccessInv(h, st)
    requires Judge(h, st, e) == Accept && !Repeat(st, e) && e.body.kind.SampleAccessBound?
    ensures AccessInv(h, Effect(h, st, e))
    ensures st.chain < Effect(h, st, e).chain
  {
    hide AccessInv, ValidChain, FindTrial, AccessVerdict;
    var b := e.body.kind.access;
    var k := FindTrial(st.trials, e.body.kind.trial);
    EffectShape(h, st, e);
    TrialFacts(h, st, e.body, k);
    AccessFacts(st, st.trials[k], e.body.at, b);
    assert |st.chain| < |b.chain|;
    AccessGrown(h, st, Effect(h, st, e), k, e.body.at, b);
  }

  /** Every event of the fold keeps the invariant. */
  lemma {:induction false} StepKeepsInv(h: Hashes, st: State, e: Event)
    requires Inv(h, st) && Judge(h, st, e) == Accept
    ensures Inv(h, Effect(h, st, e))
  {
    hide Judge, KindEffect, LogInv, PolicyInv, TrialInv, LineageInv, LifeOk, AccessInv;
    if !Repeat(st, e) {
      assert |Effect(h, st, e).accepted| == |st.accepted| + 1;
      hide Effect;
      LogPreserved(h, st, e);
      PoliciesPreserved(h, st, e);
      TrialsPreserved(h, st, e);
      LineagePreserved(h, st, e);
      LifePreserved(h, st, e);
      if e.body.kind.SampleAccessBound? {
        AccessExtended(h, st, e);
      } else {
        AccessKept(h, st, e);
      }
    }
  }

  lemma {:induction false} ReplayFromInv(h: Hashes, st: State, log: seq<Event>)
    requires Inv(h, st)
    ensures ReplayFrom(h, st, log).Loaded? ==> Inv(h, ReplayFrom(h, st, log).state)
    decreases |log|
  {
    hide Inv, Judge, Effect;
    if log != [] && Judge(h, st, log[0]) == Accept {
      StepKeepsInv(h, st, log[0]);
      ReplayFromInv(h, Effect(h, st, log[0]), log[1..]);
    }
  }

  /** The invariant holds of every accepted log. */
  lemma {:induction false} ReplayInv(h: Hashes, log: seq<Event>)
    ensures Replay(h, log).Loaded? ==> Inv(h, Replay(h, log).state)
  {
    assert Inv(h, EMPTY);
    ReplayFromInv(h, EMPTY, log);
  }
}
